/** Normalising one CreateFleet answer into an attempt receipt and its reported workers. */
module Fleet {
  import opened Basics
  import opened LaunchTypes

  datatype Template = Template(id: string, version: string)
  datatype Override = Override(instanceType: string, subnet: string, zone: string, image: Option<string>,
                               requirements: bool, weight: Option<real>)
  datatype Launch = Launch(template: Option<Template>, override: Option<Override>)
  datatype Group = Group(instanceType: string, subnet: string, zone: string, launch: Option<Launch>,
                         lifecycle: string, platform: string, ids: seq<string>)
  datatype PoolError = PoolError(launch: Option<Launch>, lifecycle: string, code: Code)
  datatype FleetOutput = FleetOutput(fleet: string, instances: Option<seq<Group>>, errors: seq<PoolError>)

  /** An EC2 error code: the ones the allocator recognises, none at all, or any other text. */
  datatype Code =
    | NoCode
    | UnauthorizedOperation | AuthFailure | AccessDenied | AccessDeniedException
    | InsufficientInstanceCapacity | InsufficientHostCapacity | UnfulfillableCapacity
    | MaxSpotInstanceCountExceeded | SpotInstanceCountLimitExceeded | InstanceLimitExceeded | VcpuLimitExceeded
    | MaxFleetCountExceeded
    | InvalidParameter | InvalidParameterValue | InvalidParameterCombination | MissingParameter | Unsupported
    | UnsupportedOperation
    | PendingVerification
    | RequestLimitExceeded | Throttling | ThrottlingException | RequestThrottled
    | IdempotentParameterMismatch
    | OtherCode(text: string)

  /** A failed call; an error that is not an API error carries no code. */
  datatype CallError = CallError(code: Code)

  datatype Pool = Pool(choice: LaunchChoice, ok: bool)

  datatype Diagnostic = Diagnostic(code: DiagnosticCode, definitive: bool)

  /** The stable diagnostic of an EC2 code, and whether the code alone proves that nothing was allocated. */
  function FleetDiagnostic(code: Code): (d: Diagnostic)
    ensures d.definitive <==> RefusesOutright(code)
    ensures d.code == LaunchPermissionDenied <==> DeniesPermission(code)
    ensures d.code == CapacityUnavailable <==> LacksCapacity(code)
    ensures d.code == LaunchQuotaExceeded <==> ExceedsQuota(code)
    ensures d.code == LaunchParametersRejected <==> RejectsParameters(code)
    ensures d.code == LaunchPendingVerification <==> code == PendingVerification
    ensures d.code == LaunchThrottled <==> Throttles(code)
    ensures d.code == LaunchIdentityConflict <==> code == IdempotentParameterMismatch
    ensures d.code == LaunchOutcomeUnknown <==> code == NoCode || code.OtherCode?
  {
    match code
    case UnauthorizedOperation | AuthFailure | AccessDenied | AccessDeniedException =>
      Diagnostic(LaunchPermissionDenied, true)
    case InsufficientInstanceCapacity | InsufficientHostCapacity | UnfulfillableCapacity =>
      Diagnostic(CapacityUnavailable, true)
    case MaxSpotInstanceCountExceeded | SpotInstanceCountLimitExceeded | InstanceLimitExceeded | VcpuLimitExceeded
       | MaxFleetCountExceeded =>
      Diagnostic(LaunchQuotaExceeded, true)
    case InvalidParameter | InvalidParameterValue | InvalidParameterCombination | MissingParameter | Unsupported
       | UnsupportedOperation =>
      Diagnostic(LaunchParametersRejected, true)
    case PendingVerification => Diagnostic(LaunchPendingVerification, true)
    case RequestLimitExceeded | Throttling | ThrottlingException | RequestThrottled =>
      Diagnostic(LaunchThrottled, false)
    case IdempotentParameterMismatch => Diagnostic(LaunchIdentityConflict, false)
    case NoCode | OtherCode(_) => Diagnostic(LaunchOutcomeUnknown, false)
  }

  ghost predicate DeniesPermission(code: Code) {
    code in {UnauthorizedOperation, AuthFailure, AccessDenied, AccessDeniedException}
  }

  ghost predicate LacksCapacity(code: Code) {
    code in {InsufficientInstanceCapacity, InsufficientHostCapacity, UnfulfillableCapacity}
  }

  ghost predicate ExceedsQuota(code: Code) {
    code in {MaxSpotInstanceCountExceeded, SpotInstanceCountLimitExceeded, InstanceLimitExceeded, VcpuLimitExceeded,
             MaxFleetCountExceeded}
  }

  ghost predicate RejectsParameters(code: Code) {
    code in {InvalidParameter, InvalidParameterValue, InvalidParameterCombination, MissingParameter, Unsupported,
             UnsupportedOperation}
  }

  ghost predicate Throttles(code: Code) {
    code in {RequestLimitExceeded, Throttling, ThrottlingException, RequestThrottled}
  }

  /** A refusal that EC2 gives before it allocates anything; throttled, repeated and unrecognised calls are not among
      them. */
  ghost predicate RefusesOutright(code: Code) {
    DeniesPermission(code) || LacksCapacity(code) || ExceedsQuota(code) || RejectsParameters(code)
    || code == PendingVerification
  }

  function StandardError(code: DiagnosticCode, choice: LaunchChoice): ResourceError {
    ResourceError("", choice.instanceType, choice.subnet, code, Standard(code))
  }

  function Filled(current: string, reported: string): string {
    if current == "" then reported else current
  }

  predicate Clash(current: string, reported: string) {
    current != "" && reported != "" && current != reported
  }

  /** A choice of the plan that agrees with what was reported; an unreported zone agrees with any. */
  ghost predicate Agrees(c: LaunchChoice, instanceType: string, subnet: string, zone: string) {
    c.instanceType == instanceType && c.subnet == subnet && (zone != "" ==> c.zone == zone)
  }

  /** The first of the approved choices that agrees with a report. */
  ghost predicate FirstAgreeing(choices: seq<LaunchChoice>, c: LaunchChoice, instanceType: string, subnet: string,
                                zone: string) {
    exists i :: 0 <= i < |choices| && choices[i] == c && Agrees(c, instanceType, subnet, zone)
                && forall j | 0 <= j < i :: !Agrees(choices[j], instanceType, subnet, zone)
  }

  function FindChoice(choices: seq<LaunchChoice>, instanceType: string, subnet: string,
                      zone: string): (c: Option<LaunchChoice>)
    ensures c.Some? ==> FirstAgreeing(choices, c.value, instanceType, subnet, zone)
    ensures c.None? ==> forall i | 0 <= i < |choices| :: !Agrees(choices[i], instanceType, subnet, zone)
    decreases |choices|
  {
    if choices == [] then None
    else if choices[0].instanceType == instanceType && choices[0].subnet == subnet
            && (zone == "" || choices[0].zone == zone)
    then Some(choices[0])
    else
      var rest := FindChoice(choices[1..], instanceType, subnet, zone);
      assert rest.Some? ==> FirstAgreeing(choices, rest.value, instanceType, subnet, zone) by {
        if rest.Some? {
          FirstLater(choices, rest.value, instanceType, subnet, zone);
        }
      }
      rest
  }

  lemma FirstLater(choices: seq<LaunchChoice>, c: LaunchChoice, instanceType: string, subnet: string, zone: string)
    requires choices != [] && FirstAgreeing(choices[1..], c, instanceType, subnet, zone)
    requires !Agrees(choices[0], instanceType, subnet, zone)
    ensures FirstAgreeing(choices, c, instanceType, subnet, zone)
  {
    hide Agrees;
    var i :| 0 <= i < |choices[1..]| && choices[1..][i] == c && Agrees(c, instanceType, subnet, zone)
             && forall j | 0 <= j < i :: !Agrees(choices[1..][j], instanceType, subnet, zone);
    forall j | 0 <= j < i + 1
      ensures !Agrees(choices[j], instanceType, subnet, zone)
    {
      if j > 0 {
        assert choices[j] == choices[1..][j - 1];
      }
    }
    assert choices[i + 1] == c;
  }

  /** A field of a report: the one at the top, or the one that the launch override repeats. */
  ghost predicate Reported(field: string, top: string, nested: Option<string>) {
    field == top || (top == "" && nested == Some(field))
  }

  /** The value of a field: the top one when it is there, else the nested one when that is there, else nothing. */
  ghost function FieldOf(top: string, nested: Option<string>): (field: string)
    ensures Reported(field, top, nested)
    ensures field == "" <==> top == "" && (nested.None? || nested.value == "")
  {
    if top != "" then top else match nested case Some(n) => n case None => ""
  }

  /** Two places of a report do not contradict each other. */
  ghost predicate Harmonious(top: string, nested: Option<string>) {
    top == "" || nested.None? || nested.value == "" || nested.value == top
  }

  ghost function OverrideOf(launch: Option<Launch>): Option<Override> {
    match launch case Some(l) => l.override case None => None
  }

  ghost function TypeOf(instanceType: string, launch: Option<Launch>): string {
    FieldOf(instanceType, match OverrideOf(launch) case Some(o) => Some(o.instanceType) case None => None)
  }

  ghost function SubnetOf(subnet: string, launch: Option<Launch>): string {
    FieldOf(subnet, match OverrideOf(launch) case Some(o) => Some(o.subnet) case None => None)
  }

  ghost function ZoneOf(zone: string, launch: Option<Launch>): string {
    FieldOf(zone, match OverrideOf(launch) case Some(o) => Some(o.zone) case None => None)
  }

  /** Nothing in a report contradicts itself or the plan's template, image and unit weights. */
  ghost predicate Uncontradicted(plan: LaunchPlan, instanceType: string, subnet: string, zone: string,
                                 launch: Option<Launch>) {
    && (launch.Some? && launch.value.template.Some? ==>
          launch.value.template.value.id == plan.templateID
          && launch.value.template.value.version == plan.templateVersion)
    && (OverrideOf(launch).Some? ==>
          var o := OverrideOf(launch).value;
          && Harmonious(instanceType, Some(o.instanceType)) && Harmonious(subnet, Some(o.subnet))
          && Harmonious(zone, Some(o.zone))
          && (o.image.Some? ==> o.image.value == plan.image) && !o.requirements
          && (o.weight.Some? ==> o.weight.value == 1.0))
  }

  /** The approved pool an answer names: omitted duplicate fields are filled, conflicting ones make it bad. It is the
      first choice of the plan that agrees with the reported type, subnet and zone, and good when besides nothing in
      the report contradicts itself or the plan; without such a choice there is no pool. */
  function FleetResponsePool(plan: LaunchPlan, instanceType: string, subnet: string, zone: string,
                             launch: Option<Launch>): (p: Pool)
    ensures var t, s, z := TypeOf(instanceType, launch), SubnetOf(subnet, launch), ZoneOf(zone, launch);
            if exists c :: c in plan.choices && Agrees(c, t, s, z) then
              FirstAgreeing(plan.choices, p.choice, t, s, z)
              && (p.ok <==> Uncontradicted(plan, instanceType, subnet, zone, launch))
            else p == Pool(NO_CHOICE, false)
    ensures p.choice == NO_CHOICE || p.choice in plan.choices
    ensures p.ok ==> p.choice in plan.choices
  {
    var templateOk := launch.None? || launch.value.template.None?
                      || launch.value.template.value == Template(plan.templateID, plan.templateVersion);
    if launch.Some? && launch.value.override.Some? then
      var o := launch.value.override.value;
      var clean := templateOk && !Clash(instanceType, o.instanceType) && !Clash(subnet, o.subnet)
                   && !Clash(zone, o.zone) && (o.image.None? || o.image.value == plan.image) && !o.requirements
                   && (o.weight.None? || o.weight.value == 1.0);
      Chosen(FindChoice(plan.choices, Filled(instanceType, o.instanceType), Filled(subnet, o.subnet),
                        Filled(zone, o.zone)), clean)
    else
      Chosen(FindChoice(plan.choices, instanceType, subnet, zone), templateOk)
  }

  function Chosen(found: Option<LaunchChoice>, clean: bool): Pool {
    if found.Some? then Pool(found.value, clean) else Pool(NO_CHOICE, false)
  }

  ghost function GroupPool(plan: LaunchPlan, g: Group): Pool {
    FleetResponsePool(plan, g.instanceType, g.subnet, g.zone, g.launch)
  }

  ghost predicate GroupClean(plan: LaunchPlan, g: Group) {
    GroupPool(plan, g).ok && g.lifecycle == plan.market && g.platform == "" && g.ids != []
  }

  ghost predicate ErrorClean(plan: LaunchPlan, e: PoolError) {
    FleetResponsePool(plan, "", "", "", e.launch).ok && e.lifecycle == plan.market && e.code != NoCode
  }

  /** One identity of the answer with the pool it was reported under. */
  datatype Entry = Entry(id: string, choice: LaunchChoice)

  ghost function GroupEntries(plan: LaunchPlan, g: Group): seq<Entry> {
    seq(|g.ids|, i requires 0 <= i < |g.ids| => Entry(g.ids[i], GroupPool(plan, g).choice))
  }

  /** Every identity listed by an answer, in the answer's order. */
  ghost function Entries(plan: LaunchPlan, groups: seq<Group>): seq<Entry> {
    if groups == [] then [] else Entries(plan, groups[..|groups| - 1]) + GroupEntries(plan, groups[|groups| - 1])
  }

  ghost function ListedIds(es: seq<Entry>): set<string> {
    set e | e in es && ValidInstanceID(e.id) :: e.id
  }

  /** No identity is malformed or listed twice. */
  ghost predicate Distinct(es: seq<Entry>) {
    && (forall e | e in es :: ValidInstanceID(e.id))
    && (forall i, j | 0 <= i < j < |es| :: es[i].id != es[j].id)
  }

  /** The pool under which a listed identity appears first. */
  ghost function ChoiceOf(es: seq<Entry>, id: string): LaunchChoice {
    if es == [] then NO_CHOICE
    else if id in ListedIds(es[..|es| - 1]) then ChoiceOf(es[..|es| - 1], id)
    else if es[|es| - 1].id == id && ValidInstanceID(id) then es[|es| - 1].choice
    else NO_CHOICE
  }

  lemma EntryAppend(es: seq<Entry>, e: Entry)
    ensures ListedIds(es + [e]) == ListedIds(es) + (if ValidInstanceID(e.id) then {e.id} else {})
    ensures Distinct(es + [e]) <==> Distinct(es) && ValidInstanceID(e.id) && e.id !in ListedIds(es)
    ensures forall id :: ChoiceOf(es + [e], id)
                         == if id in ListedIds(es) then ChoiceOf(es, id)
                            else if e.id == id && ValidInstanceID(id) then e.choice else NO_CHOICE
  {
    var all := es + [e];
    assert all[..|es|] == es;
    assert all[|es|] == e;
    if Distinct(es) && ValidInstanceID(e.id) && e.id !in ListedIds(es) {
      forall i, j | 0 <= i < j < |all|
        ensures all[i].id != all[j].id
      {
        if j == |es| {
          assert all[i] in es;
        }
      }
    }
    if Distinct(all) {
      DistinctPrefix(es, [e]);
      assert e in all;
      forall f | f in es
        ensures f.id != e.id
      {
        var i :| 0 <= i < |es| && es[i] == f;
        assert all[i].id != all[|es|].id;
      }
    }
  }

  ghost function Groups(out: Option<FleetOutput>): seq<Group> {
    if out.Some? && out.value.instances.Some? then out.value.instances.value else []
  }

  ghost function Answered(plan: LaunchPlan, out: Option<FleetOutput>): seq<Entry> {
    Entries(plan, Groups(out))
  }

  /** Exactly the answers that bound the allocation of an attempt. */
  ghost predicate Bounds(plan: LaunchPlan, attempt: AttemptReceipt, out: Option<FleetOutput>, err: Option<CallError>) {
    && err.None? && out.Some?
    && ValidFleetID(out.value.fleet) && (attempt.fleet == "" || attempt.fleet == out.value.fleet)
    && out.value.instances.Some?
    && (forall g | g in out.value.instances.value :: GroupClean(plan, g))
    && Distinct(Answered(plan, out))
    && (forall e | e in out.value.errors :: ErrorClean(plan, e))
    && (|ListedIds(Answered(plan, out))| < attempt.count ==> out.value.errors != [])
    && |ListedIds(Answered(plan, out))| <= attempt.count
    && Elems(attempt.instances) <= ListedIds(Answered(plan, out))
  }

  ghost predicate ConflictingFleet(attempt: AttemptReceipt, out: Option<FleetOutput>) {
    out.Some? && ValidFleetID(out.value.fleet) && attempt.fleet != "" && attempt.fleet != out.value.fleet
  }

  ghost function FleetOf(attempt: AttemptReceipt, out: Option<FleetOutput>): string {
    if out.Some? && ValidFleetID(out.value.fleet)
       && !ConflictingFleet(attempt, out)
    then out.value.fleet else attempt.fleet
  }

  /** The diagnostic of one pool error: a stable message under the approved pool it names, never an arbitrary string. */
  ghost function PoolDiagnostic(plan: LaunchPlan, e: PoolError): ResourceError {
    var d := FleetDiagnostic(e.code).code;
    var c := FleetResponsePool(plan, "", "", "", e.launch).choice;
    var code := if d == LaunchOutcomeUnknown then FleetPoolError else d;
    ResourceError("", c.instanceType, c.subnet, code, Standard(code))
  }

  ghost function PoolDiagnostics(plan: LaunchPlan, errors: seq<PoolError>): (ds: seq<ResourceError>)
    ensures |ds| == |errors|
    ensures forall i | 0 <= i < |errors| :: ds[i] == PoolDiagnostic(plan, errors[i])
  {
    seq(|errors|, i requires 0 <= i < |errors| => PoolDiagnostic(plan, errors[i]))
  }

  ghost function KnownIds(plan: LaunchPlan, attempt: AttemptReceipt, out: Option<FleetOutput>): set<string> {
    (set id | id in attempt.instances && ValidInstanceID(id)) + ListedIds(Answered(plan, out))
  }

  /** What a failed or unbounded call adds to the diagnostics. */
  ghost function TailErrors(bounded: bool, err: Option<CallError>): seq<ResourceError> {
    if bounded then []
    else
      var code := if err.Some? then FleetDiagnostic(err.value.code).code else FleetResponseIncomplete;
      [ResourceError("", "", "", code, Standard(code))]
  }

  ghost function ErrorsOf(plan: LaunchPlan, attempt: AttemptReceipt, out: Option<FleetOutput>,
                          err: Option<CallError>): seq<ResourceError> {
    attempt.errors
    + (if ConflictingFleet(attempt, out)
       then [ResourceError(out.value.fleet, "", "", FleetResponseConflict, Standard(FleetResponseConflict))] else [])
    + (if out.Some? then PoolDiagnostics(plan, out.value.errors) else [])
    + TailErrors(Bounds(plan, attempt, out, err), err)
  }

  ghost function StateOf(plan: LaunchPlan, attempt: AttemptReceipt, out: Option<FleetOutput>,
                         err: Option<CallError>): AttemptState {
    if Bounds(plan, attempt, out, err) then Complete
    else if err.Some? && FleetDiagnostic(err.value.code).definitive && out.None?
            && attempt.fleet == "" && KnownIds(plan, attempt, out) == {}
         then Rejected
    else Unknown
  }

  /** The normalised form of an answer, said without the loops that compute it. */
  ghost predicate Normalized(plan: LaunchPlan, attempt: AttemptReceipt, out: Option<FleetOutput>,
                             err: Option<CallError>,
                             r: AttemptReceipt, workers: seq<Worker>) {
    && r == attempt.(state := StateOf(plan, attempt, out, err), fleet := FleetOf(attempt, out),
                     instances := r.instances, errors := ErrorsOf(plan, attempt, out, err))
    && Sorted(r.instances) && Elems(r.instances) == KnownIds(plan, attempt, out)
    && |workers| == |r.instances|
    && forall k | 0 <= k < |workers| ::
         workers[k] == FleetWorker(plan, attempt.id, r.instances[k], ChoiceOf(Answered(plan, out), r.instances[k]))
  }

  /** Map entries are exactly the named identities, each as the pool of its first listing describes it. */
  ghost predicate Describes(plan: LaunchPlan, attempt: AttemptReceipt, known: set<string>, es: seq<Entry>,
                            workers: map<string, Worker>) {
    && workers.Keys == known + ListedIds(es)
    && forall id | id in workers :: workers[id] == FleetWorker(plan, attempt.id, id, ChoiceOf(es, id))
  }

  lemma DescribesAppend(plan: LaunchPlan, attempt: AttemptReceipt, known: set<string>, es: seq<Entry>,
                        workers: map<string, Worker>, e: Entry)
    requires Describes(plan, attempt, known, es, workers)
    ensures ValidInstanceID(e.id) && e.id !in ListedIds(es)
            ==> Describes(plan, attempt, known, es + [e],
                          workers[e.id := FleetWorker(plan, attempt.id, e.id, e.choice)])
    ensures !(ValidInstanceID(e.id) && e.id !in ListedIds(es)) ==> Describes(plan, attempt, known, es + [e], workers)
  {
    EntryAppend(es, e);
    var next := es + [e];
    if ValidInstanceID(e.id) && e.id !in ListedIds(es) {
      var out := workers[e.id := FleetWorker(plan, attempt.id, e.id, e.choice)];
      assert out.Keys == workers.Keys + {e.id};
      forall id | id in out
        ensures out[id] == FleetWorker(plan, attempt.id, id, ChoiceOf(next, id))
      {
        UnlistedChoice(es, id);
      }
    } else {
      forall id | id in workers
        ensures workers[id] == FleetWorker(plan, attempt.id, id, ChoiceOf(next, id))
      {
        UnlistedChoice(es, id);
      }
    }
  }

  lemma {:induction false} UnlistedChoice(es: seq<Entry>, id: string)
    ensures id !in ListedIds(es) ==> ChoiceOf(es, id) == NO_CHOICE
  {
  }

  lemma CleanErrorsAppend(plan: LaunchPlan, errors: seq<PoolError>, n: nat)
    requires n < |errors|
    ensures (forall e | e in errors[..n + 1] :: ErrorClean(plan, e))
            <==> (forall e | e in errors[..n] :: ErrorClean(plan, e)) && ErrorClean(plan, errors[n])
    ensures PoolDiagnostics(plan, errors)[..n + 1]
            == PoolDiagnostics(plan, errors)[..n] + [PoolDiagnostic(plan, errors[n])]
  {
    hide ErrorClean, PoolDiagnostic;
    assert errors[..n + 1] == errors[..n] + [errors[n]];
  }

  /** One identity of a group: a malformed or repeated one makes the answer bad, any other is kept. */
  method CollectID(plan: LaunchPlan, attempt: AttemptReceipt, id: string, choice: LaunchChoice, ghost es: seq<Entry>,
                   ghost known: set<string>, responseIDs: set<string>, workers: map<string, Worker>)
    returns (clean: bool, ids: set<string>, out: map<string, Worker>)
    requires Describes(plan, attempt, known, es, workers) && responseIDs == ListedIds(es)
    ensures Describes(plan, attempt, known, es + [Entry(id, choice)], out) && ids == ListedIds(es + [Entry(id, choice)])
    ensures clean && Distinct(es) <==> Distinct(es + [Entry(id, choice)])
  {
    EntryAppend(es, Entry(id, choice));
    DescribesAppend(plan, attempt, known, es, workers, Entry(id, choice));
    if !ValidInstanceID(id) || id in responseIDs {
      return false, responseIDs, workers;
    }
    return true, responseIDs + {id}, workers[id := FleetWorker(plan, attempt.id, id, choice)];
  }

  /** The loop over one instance group. */
  method CollectGroup(plan: LaunchPlan, attempt: AttemptReceipt, g: Group, ghost es: seq<Entry>,
                      ghost known: set<string>,
                      responseIDs: set<string>, workers: map<string, Worker>)
    returns (clean: bool, ids: set<string>, out: map<string, Worker>)
    requires Describes(plan, attempt, known, es, workers) && responseIDs == ListedIds(es)
    ensures Describes(plan, attempt, known, es + GroupEntries(plan, g), out)
            && ids == ListedIds(es + GroupEntries(plan, g))
    ensures clean && Distinct(es) <==> GroupClean(plan, g) && Distinct(es + GroupEntries(plan, g))
  {
    hide Describes, ListedIds, Distinct;
    var pool := FleetResponsePool(plan, g.instanceType, g.subnet, g.zone, g.launch);
    assert pool == GroupPool(plan, g);
    hide FleetResponsePool, GroupPool;
    clean := pool.ok && g.lifecycle == plan.market && g.platform == "" && |g.ids| > 0;
    ids, out := responseIDs, workers;
    ghost var now := es;
    for k := 0 to |g.ids|
      invariant now == es + GroupEntries(plan, g)[..k]
      invariant Describes(plan, attempt, known, now, out) && ids == ListedIds(now)
      invariant clean && Distinct(es) <==> GroupClean(plan, g) && Distinct(now)
    {
      var ok;
      ok, ids, out := CollectID(plan, attempt, g.ids[k], pool.choice, now, known, ids, out);
      clean := clean && ok;
      DistinctPrefix(now, [Entry(g.ids[k], pool.choice)]);
      now := now + [Entry(g.ids[k], pool.choice)];
    }
    assert GroupEntries(plan, g)[..|g.ids|] == GroupEntries(plan, g);
  }

  /** The loop over the instance groups. */
  method CollectGroups(plan: LaunchPlan, attempt: AttemptReceipt, groups: seq<Group>, ghost known: set<string>,
                       start: map<string, Worker>)
    returns (clean: bool, ids: set<string>, workers: map<string, Worker>)
    requires Describes(plan, attempt, known, [], start)
    ensures Describes(plan, attempt, known, Entries(plan, groups), workers) && ids == ListedIds(Entries(plan, groups))
    ensures clean <==> (forall g | g in groups :: GroupClean(plan, g)) && Distinct(Entries(plan, groups))
  {
    hide Distinct, Describes, ListedIds, GroupClean, GroupEntries;
    NoEntries(groups);
    clean, ids, workers := true, {}, start;
    var n := 0;
    while n < |groups|
      invariant 0 <= n <= |groups|
      invariant Describes(plan, attempt, known, Entries(plan, groups[..n]), workers)
                && ids == ListedIds(Entries(plan, groups[..n]))
      invariant clean <==> (forall g | g in groups[..n] :: GroupClean(plan, g)) && Distinct(Entries(plan, groups[..n]))
    {
      ghost var es := Entries(plan, groups[..n]);
      assert groups[..n + 1] == groups[..n] + [groups[n]];
      assert groups[..n + 1][..n] == groups[..n];
      var ok: bool;
      ok, ids, workers := CollectGroup(plan, attempt, groups[n], es, known, ids, workers);
      DistinctPrefix(es, GroupEntries(plan, groups[n]));
      clean := clean && ok;
      n := n + 1;
    }
    assert groups[..n] == groups;
  }

  lemma NoEntries(groups: seq<Group>)
    ensures Distinct([]) && ListedIds([]) == {} && groups[..0] == []
  {
  }

  lemma DistinctPrefix(es: seq<Entry>, more: seq<Entry>)
    ensures Distinct(es + more) ==> Distinct(es)
  {
    var all := es + more;
    if Distinct(all) {
      forall i, j | 0 <= i < j < |es|
        ensures es[i].id != es[j].id
      {
        assert all[i] == es[i] && all[j] == es[j];
      }
      forall e | e in es
        ensures ValidInstanceID(e.id)
      {
        assert e in all;
      }
    }
  }

  /** The loop over pool errors. */
  method CollectErrors(plan: LaunchPlan, errors: seq<PoolError>, start: seq<ResourceError>)
    returns (clean: bool, diagnostics: seq<ResourceError>)
    ensures clean <==> forall e | e in errors :: ErrorClean(plan, e)
    ensures diagnostics == start + PoolDiagnostics(plan, errors)
  {
    hide FleetResponsePool, FleetDiagnostic;
    clean, diagnostics := true, start;
    for n := 0 to |errors|
      invariant clean <==> forall e | e in errors[..n] :: ErrorClean(plan, e)
      invariant diagnostics == start + PoolDiagnostics(plan, errors)[..n]
    {
      var e := errors[n];
      CleanErrorsAppend(plan, errors, n);
      var pool := FleetResponsePool(plan, "", "", "", e.launch);
      if !pool.ok || e.lifecycle != plan.market || e.code == NoCode {
        clean := false;
      }
      var code := FleetDiagnostic(e.code).code;
      if code == LaunchOutcomeUnknown {
        code := FleetPoolError;
      }
      diagnostics := diagnostics + [StandardError(code, pool.choice)];
    }
    assert errors[..|errors|] == errors;
    assert PoolDiagnostics(plan, errors)[..|errors|] == PoolDiagnostics(plan, errors);
  }

  /** The keys of a map in sorted order. */
  method SortedKeys(workers: map<string, Worker>) returns (ids: seq<string>)
    ensures Sorted(ids) && Elems(ids) == workers.Keys
  {
    ids := [];
    var rest := workers.Keys;
    while rest != {}
      invariant rest <= workers.Keys
      invariant Sorted(ids) && Elems(ids) == workers.Keys - rest
      decreases rest
    {
      var id :| id in rest;
      rest := rest - {id};
      ids := SortedInsert(ids, id);
    }
  }

  method InOrder(ids: seq<string>, workers: map<string, Worker>) returns (ordered: seq<Worker>)
    requires Elems(ids) == workers.Keys
    ensures |ordered| == |ids|
    ensures forall k | 0 <= k < |ids| :: ids[k] in workers && ordered[k] == workers[ids[k]]
  {
    ordered := [];
    for n := 0 to |ids|
      invariant |ordered| == n
      invariant forall k | 0 <= k < n :: ids[k] in workers && ordered[k] == workers[ids[k]]
    {
      assert ids[n] in Elems(ids);
      ordered := ordered + [workers[ids[n]]];
    }
  }

  ghost function EnvelopeErrors(plan: LaunchPlan, attempt: AttemptReceipt, o: FleetOutput): seq<ResourceError> {
    attempt.errors
    + (if ConflictingFleet(attempt, Some(o))
      then [ResourceError(o.fleet, "", "", FleetResponseConflict, Standard(FleetResponseConflict))] else [])
    + PoolDiagnostics(plan, o.errors)
  }

  /** The Fleet that an envelope names: it is taken over unless it is no Fleet identity or another one is known. */
  method ReadFleet(attempt: AttemptReceipt, o: FleetOutput)
    returns (valid: bool, fleet: string, errors: seq<ResourceError>)
    ensures valid <==> ValidFleetID(o.fleet) && (attempt.fleet == "" || attempt.fleet == o.fleet)
    ensures fleet == FleetOf(attempt, Some(o))
    ensures errors == attempt.errors
                      + (if ConflictingFleet(attempt, Some(o))
                         then [ResourceError(o.fleet, "", "", FleetResponseConflict, Standard(FleetResponseConflict))]
                         else [])
  {
    hide ValidFleetID;
    valid, fleet, errors := true, attempt.fleet, attempt.errors;
    if !ValidFleetID(o.fleet) {
      valid := false;
    } else if fleet != "" && fleet != o.fleet {
      valid := false;
      errors := errors + [ResourceError(o.fleet, "", "", FleetResponseConflict, Standard(FleetResponseConflict))];
    } else {
      fleet := o.fleet;
    }
  }

  /** The part of the normaliser that reads a returned envelope. */
  method ReadEnvelope(plan: LaunchPlan, attempt: AttemptReceipt, o: FleetOutput, err: Option<CallError>,
                      ghost known: set<string>,
                      start: map<string, Worker>)
    returns (valid: bool, fleet: string, errors: seq<ResourceError>, workers: map<string, Worker>)
    requires Describes(plan, attempt, known, [], start)
    ensures valid <==> Bounds(plan, attempt, Some(o), err)
    ensures fleet == FleetOf(attempt, Some(o)) && errors == EnvelopeErrors(plan, attempt, o)
    ensures Describes(plan, attempt, known, Answered(plan, Some(o)), workers)
  {
    hide ValidFleetID, Distinct, ErrorClean, GroupClean, ListedIds, Entries, PoolDiagnostics, Describes, FleetOf,
         ConflictingFleet;
    valid, fleet, errors := ReadFleet(attempt, o);
    if err.Some? {
      valid := false;
    }
    if o.instances.None? {
      valid := false;
    }
    var groups := if o.instances.Some? then o.instances.value else [];
    var groupsClean, responseIDs;
    groupsClean, responseIDs, workers := CollectGroups(plan, attempt, groups, known, start);
    var errorsClean;
    errorsClean, errors := CollectErrors(plan, o.errors, errors);
    valid := valid && groupsClean && errorsClean;
    if |responseIDs| < attempt.count && |o.errors| == 0 {
      valid := false;
    }
    if |responseIDs| > attempt.count {
      valid := false;
    }
    if exists id | id in attempt.instances :: id !in responseIDs {
      valid := false;
    }
  }

  lemma NoEnvelope(plan: LaunchPlan, attempt: AttemptReceipt, err: Option<CallError>)
    ensures !Bounds(plan, attempt, None, err)
    ensures FleetOf(attempt, None) == attempt.fleet && !ConflictingFleet(attempt, None)
    ensures Answered(plan, None) == []
  {
  }

  /** The closing branches: a bounded answer is complete, a definitive refusal with nothing reported is rejected. */
  method Conclude(plan: LaunchPlan, attempt: AttemptReceipt, out: Option<FleetOutput>, err: Option<CallError>,
                  valid: bool, fleet: string, known: bool, errors: seq<ResourceError>)
    returns (state: AttemptState, all: seq<ResourceError>)
    requires valid <==> Bounds(plan, attempt, out, err)
    requires fleet == FleetOf(attempt, out) && (known <==> KnownIds(plan, attempt, out) != {})
    requires errors == if out.Some? then EnvelopeErrors(plan, attempt, out.value) else attempt.errors
    ensures state == StateOf(plan, attempt, out, err) && all == ErrorsOf(plan, attempt, out, err)
  {
    hide Bounds, ValidFleetID, KnownIds, PoolDiagnostics, FleetDiagnostic;
    if valid {
      return Complete, errors;
    }
    if err.Some? {
      var d := FleetDiagnostic(err.value.code);
      state := if d.definitive && out.None? && fleet == "" && !known then Rejected else Unknown;
      return state, errors + [StandardError(d.code, NO_CHOICE)];
    }
    return Unknown, errors + [StandardError(FleetResponseIncomplete, NO_CHOICE)];
  }

  /** `NormalizeFleetResponse` computes the normalised form of every answer, error or both. */
  method NormalizeFleetResponse(plan: LaunchPlan, attempt: AttemptReceipt, out: Option<FleetOutput>,
                                err: Option<CallError>)
    returns (r: AttemptReceipt, ordered: seq<Worker>)
    ensures Normalized(plan, attempt, out, err, r, ordered)
  {
    NoEnvelope(plan, attempt, err);
    hide Bounds, ValidFleetID, ValidInstanceID, FleetOf, Answered, ErrorsOf, StateOf, EnvelopeErrors;
    ghost var known := set id | id in attempt.instances && ValidInstanceID(id);
    var workers := map id | id in attempt.instances && ValidInstanceID(id) ::
          FleetWorker(plan, attempt.id, id, NO_CHOICE);
    var valid, fleet, errors := false, attempt.fleet, attempt.errors;
    assert Describes(plan, attempt, known, [], workers);
    if out.Some? {
      valid, fleet, errors, workers := ReadEnvelope(plan, attempt, out.value, err, known, workers);
    }
    assert workers.Keys == KnownIds(plan, attempt, out);
    var ids := SortedKeys(workers);
    assert |ids| != 0 <==> workers.Keys != {} by {
      if |ids| > 0 {
        assert ids[0] in Elems(ids);
      }
    }
    var state;
    state, errors := Conclude(plan, attempt, out, err, valid, fleet, |ids| != 0, errors);
    r := attempt.(state := state, fleet := fleet, instances := ids, errors := errors);
    ordered := InOrder(ids, workers);
  }

  /** An answer has one normal form: the relation is a function of the plan, the attempt and the answer. */
  lemma NormalizedUnique(plan: LaunchPlan, attempt: AttemptReceipt, out: Option<FleetOutput>, err: Option<CallError>,
                         r: AttemptReceipt, w: seq<Worker>, r': AttemptReceipt, w': seq<Worker>)
    requires Normalized(plan, attempt, out, err, r, w) && Normalized(plan, attempt, out, err, r', w')
    ensures r == r' && w == w'
  {
    SortedUnique(r.instances, r'.instances);
  }
}
