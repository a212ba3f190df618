/** Values of the launch ledger: plans, attempts, receipts and shared records.
    SHA-256 values are symbolic: a digest is the term it was computed from, so equal digests mean equal inputs. */
module LaunchTypes {
  import opened Basics

  const MAX_LAUNCH_ATTEMPTS := 256
  const HARD_MAX_COUNT := 100

  predicate IsHex(s: string) {
    forall c | c in s :: '0' <= c <= '9' || 'a' <= c <= 'f'
  }

  predicate ValidRequest(id: string) {
    |id| == 32 && IsHex(id)
  }

  predicate ValidInstanceID(id: string) {
    (|id| == 10 || |id| == 19) && id[..2] == "i-" && IsHex(id[2..])
  }

  predicate ValidFleetID(id: string) {
    && |id| == 42 && id[..6] == "fleet-"
    && forall i | 6 <= i < 42 :: if i == 14 || i == 19 || i == 24 || i == 29 then id[i] == '-' else IsHex([id[i]])
  }

  datatype LaunchChoice = LaunchChoice(instanceType: string, subnet: string, zone: string)

  const NO_CHOICE := LaunchChoice("", "", "")

  /** Text of a timestamp, either parsed or not an RFC 3339 time at all. */
  datatype Stamp = At(nanos: int) | Malformed(text: string)

  /** Plan fields whose validation is a pure comparison field by field (image, disk, scope, readiness, tags, ledger
      location and expiry window), with the verdict of that validation. */
  datatype Pins = Pins(text: string, wellFormed: bool)

  datatype LaunchPlan = LaunchPlan(
    request: string, createdAt: Stamp, market: string, requestedCount: int, choices: seq<LaunchChoice>,
    templateID: string, templateVersion: string, image: string, policy: string, pins: Pins)

  datatype PlanDigest = PlanDigest(plan: LaunchPlan)

  /** The identity of the only successor of `parent` in a request. */
  datatype AttemptID = AttemptID(request: string, parent: Option<AttemptID>)

  datatype ClientToken = ClientToken(plan: PlanDigest, attempt: AttemptID, count: int)

  datatype AttemptState = Prepared | Dispatched | Unknown | Complete | Rejected | Unrecognized(text: string)

  /** The sanitised diagnostic vocabulary of launch evidence; `OtherDiagnostic` is any code outside it. */
  datatype DiagnosticCode =
    | LaunchPermissionDenied | CapacityUnavailable | LaunchQuotaExceeded | LaunchParametersRejected
    | LaunchPendingVerification | LaunchThrottled | LaunchIdentityConflict | LaunchOutcomeUnknown
    | FleetPoolError | FleetResponseIncomplete | FleetResponseConflict | OtherDiagnostic(text: string)

  /** A stable message is named by its diagnostic code; anything else is foreign text. */
  datatype Message = Standard(code: DiagnosticCode) | Foreign(text: string)

  datatype ResourceError = ResourceError(resource: string, instanceType: string, subnet: string,
                                         code: DiagnosticCode, message: Message)

  datatype AttemptReceipt = AttemptReceipt(
    id: AttemptID, parent: Option<AttemptID>, token: ClientToken, count: int, createdAt: Stamp,
    state: AttemptState, fleet: string, instances: seq<string>, errors: seq<ResourceError>)
  {
    predicate Terminal() {
      state == Complete || state == Rejected
    }
  }

  datatype BatchReceipt = BatchReceipt(request: string, plan: LaunchPlan, digest: PlanDigest,
                                       attempts: seq<AttemptReceipt>)

  datatype Volume = Volume(id: string, device: string, root: bool, deleteOnTermination: bool)

  datatype Worker = Worker(id: string, attempt: Option<AttemptID>, plan: Option<PlanDigest>, choice: LaunchChoice,
                           status: WorkerStatus, volumes: seq<Volume>)

  datatype WorkerStatus = NotObserved | Allocated | IdentityMismatch | Historical

  /** The exact CreateFleet input: everything else in it is a function of the plan and the attempt identity. */
  datatype FleetInput = FleetInput(plan: LaunchPlan, attempt: AttemptID, token: ClientToken, target: int)

  datatype InputDigest = InputDigest(input: FleetInput)

  datatype PreparedAttempt = PreparedAttempt(request: string, digest: PlanDigest, input: InputDigest,
                                             attempt: AttemptReceipt)

  datatype DispatchClaim = DispatchClaim(request: string, attempt: AttemptID, digest: PlanDigest, input: InputDigest,
                                         token: ClientToken)

  datatype AttemptResponse = AttemptResponse(request: string, digest: PlanDigest, input: InputDigest,
                                             attempt: AttemptReceipt, workers: seq<Worker>)

  /** An attempt's identity is derived from the request and the parent alone. */
  function NextID(request: string, parent: Option<AttemptID>): AttemptID {
    AttemptID(request, parent)
  }

  /** The number of attempts up to and including this one. */
  ghost function Depth(id: AttemptID): nat {
    1 + ParentDepth(id.parent)
  }

  ghost function ParentDepth(parent: Option<AttemptID>): nat {
    match parent
    case None => 0
    case Some(p) => Depth(p)
  }

  function Digest(plan: LaunchPlan): PlanDigest {
    PlanDigest(plan)
  }

  function BuildFleetInput(plan: LaunchPlan, a: AttemptReceipt): Option<FleetInput> {
    if && plan.pins.wellFormed && plan.choices != [] && ValidRequest(plan.request)
       && (plan.market == "spot" || plan.market == "on-demand")
       && 1 <= a.count <= plan.requestedCount <= HARD_MAX_COUNT
       && a.token == ClientToken(Digest(plan), a.id, a.count)
       && a.id == NextID(plan.request, a.parent)
       && plan.createdAt.At? && a.createdAt.At?
    then Some(FleetInput(plan, a.id, a.token, a.count))
    else None
  }

  function FleetWorker(plan: LaunchPlan, attempt: AttemptID, id: string, choice: LaunchChoice): Worker {
    Worker(id, Some(attempt), Some(Digest(plan)), choice, NotObserved, [])
  }

  /** The first attempt of a plan, as a new receipt holds it. */
  function InitialAttempt(plan: LaunchPlan): AttemptReceipt {
    var id := NextID(plan.request, None);
    AttemptReceipt(id, None, ClientToken(Digest(plan), id, plan.requestedCount), plan.requestedCount, plan.createdAt,
                   Prepared, "", [], [])
  }
}
