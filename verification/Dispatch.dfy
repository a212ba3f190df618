/** One dispatch, in the order in which it happens: local copy, announcement, shared preparation, local copy again,
    shared claim, one CreateFleet call, and then both records of what came back. */
module Dispatch {
  import opened Basics
  import opened LaunchTypes
  import opened Receipt
  import opened Fleet
  import opened Evidence
  import opened Ledger
  import opened Lineage
  import opened LedgerClient
  import BC = BatchCache
  import FW = FleetWorkers

  datatype Effect = SavedPrepared | Announced | SharedPreparation | SavedDispatched | ClaimWon | Sent(input: FleetInput)

  /** The only order in which the effects of a dispatch can happen. */
  ghost function AllEffects(input: FleetInput): seq<Effect> {
    [SavedPrepared, Announced, SharedPreparation, SavedDispatched, ClaimWon, Sent(input)]
  }

  datatype DispatchError =
    | InvalidReceipt | NotAllowed | AlreadyDispatched | ParametersChanged | InputInvalid | CacheFailed
    | OutputUnavailable
    | LedgerFailed(cause: LedgerError) | AllocationUnknown | Cancelled
    | ObservationFailed(observed: FW.InspectionError) | ExpiryRefused

  /** What EC2 and the SDK answered to the one call; the last check before it leaves may refuse it for its expiry. */
  datatype Reply = Reply(out: Option<FleetOutput>, err: Option<CallError>, sdkAttempts: nat, refused: bool)

  /** What EC2 answers to the exact inspection of the reported workers afterwards. */
  datatype Inspection = Inspection(instances: seq<FW.Page<FW.InstanceRow>>, volumes: seq<FW.Page<FW.VolumeRow>>)

  datatype AttemptResult = AttemptResult(receipt: BatchReceipt, workers: seq<Worker>, dispatched: bool)

  function LastOf(r: BatchReceipt): (a: AttemptReceipt)
    requires r.attempts != []
    ensures r.attempts == r.attempts[..|r.attempts| - 1] + [a]
  {
    r.attempts[|r.attempts| - 1]
  }

  function WithLast(r: BatchReceipt, a: AttemptReceipt): (t: BatchReceipt)
    requires r.attempts != []
    ensures t == r.(attempts := r.attempts[..|r.attempts| - 1] + [a])
  {
    r.(attempts := r.attempts[|r.attempts| - 1 := a])
  }

  /** The preparation that a receipt's last attempt calls for, once its exact input is known. */
  function PreparedOf(r: BatchReceipt, input: FleetInput): (p: PreparedAttempt)
    requires r.attempts != []
    ensures p.request == r.request && p.digest == r.digest && p.input == InputDigest(input)
            && p.attempt == r.attempts[|r.attempts| - 1]
  {
    PreparedAttempt(r.request, r.digest, InputDigest(input), LastOf(r))
  }

  /** The answers of the checks along the way: whether allocation is allowed (asked five times), the foundation
      verified, the announcement made, and the caller still waiting (asked three times). */
  datatype Gates = Gates(allowed: bool, foundation: bool, announced: bool, stillAllowed: bool, kept: bool,
                         allowedToClaim: bool, keptOn: bool, inTime: bool, finished: bool)

  /** How a local save ends: whether all of it is durable, and whether the rename happened. */
  datatype Durability = Durability(durable: bool, renamed: bool)

  /** What becomes of the writes of one dispatch. */
  datatype World = World(prepared: Durability, sharing: Preparing, dispatched: Durability, claiming: Claiming,
                         answered: Durability, recording: Recording)

  ghost predicate Sane(w: World) {
    w.sharing.plan.failure != Some(NotFound) && w.sharing.record.failure != Some(NotFound)
    && w.recording.record.failure != Some(NotFound)
  }

  type Files = map<string, BC.File>

  ghost function SavedIn(files: Files, r: BatchReceipt, d: Durability): (Files, bool) {
    (if BC.Admits(files, r) && (d.durable || d.renamed) then files[r.request := BC.Batch(r)] else files,
     BC.Admits(files, r) && d.durable)
  }

  /** Why a dispatch does not even begin. */
  ghost function Refusal(r: BatchReceipt, planUnchanged: bool, g: Gates): (e: Option<DispatchError>)
    ensures e.None? ==> ValidReceipt(r) && r.attempts != [] && BuildFleetInput(r.plan, LastOf(r)).Some?
  {
    hide BuildFleetInput;
    if !ValidReceipt(r) then Some(InvalidReceipt)
    else if !g.allowed then Some(NotAllowed)
    else if LastOf(r).state != Prepared then Some(AlreadyDispatched)
    else if !planUnchanged then Some(ParametersChanged)
    else if BuildFleetInput(r.plan, LastOf(r)).None? then Some(InputInvalid)
    else if !g.foundation then Some(NotAllowed) else None
  }

  /** How far a dispatch comes: how many effects it has, the error that stops it if one does, and what it leaves of the
      shared store and of the local files. */
  datatype Course = Course(steps: nat, error: Option<DispatchError>, store: Store, files: Files)

  /** The way to the claim. */
  ghost function ToClaim(r: BatchReceipt, input: FleetInput, g: Gates, w: World, policy: string, s: Store, files: Files)
    : Course
    requires r.attempts != []
  {
    hide PreparesIn, BC.Admits;
    var (f1, saved) := SavedIn(files, r, w.prepared);
    if !saved then Course(0, Some(CacheFailed), s, f1)
    else if !g.announced then Course(1, Some(OutputUnavailable), s, f1)
    else if !g.stillAllowed then Course(2, Some(NotAllowed), s, f1)
    else
      var (s1, failed) := PreparesIn(s, r, PreparedOf(r, input), policy, w.sharing);
      if failed.Some? then Course(2, Some(LedgerFailed(failed.value)), s1, f1)
      else if !g.kept then Course(3, Some(Cancelled), s1, f1)
      else
        var (f2, saved) := SavedIn(f1, WithLast(r, LastOf(r).(state := Dispatched)), w.dispatched);
        if !saved then Course(3, Some(CacheFailed), s1, f2) else Course(4, None, s1, f2)
  }

  /** The way through the claim to the moment before the call. */
  ghost function Claimed(r: BatchReceipt, input: FleetInput, g: Gates, w: World, policy: string, s: Store, files: Files)
    : Course
    requires r.attempts != []
  {
    hide ClaimsIn, ToClaim;
    var c := ToClaim(r, input, g, w, policy, s, files);
    if c.error.Some? then c
    else if !g.allowedToClaim then c.(error := Some(NotAllowed))
    else
      var claim := ExpectedClaim(PreparedOf(r, input));
      var (s1, won, _) := ClaimsIn(c.store, claim, r.request, policy, w.claiming);
      if !won then Course(4, Some(AllocationUnknown), s1, c.files)
      else if !g.keptOn then Course(5, Some(Cancelled), s1, c.files)
      else if !g.inTime then Course(5, Some(NotAllowed), s1, c.files) else Course(6, None, s1, c.files)
  }

  /** The way to the call: without an error it is made. */
  ghost function ToCall(r: BatchReceipt, planUnchanged: bool, g: Gates, w: World, policy: string, s: Store,
                        files: Files)
    : Course
  {
    hide BuildFleetInput, Claimed;
    if Refusal(r, planUnchanged, g).Some? then Course(0, Refusal(r, planUnchanged, g), s, files)
    else Claimed(r, BuildFleetInput(r.plan, LastOf(r)).value, g, w, policy, s, files)
  }

  /** The shared records that justify a call. */
  ghost predicate Evident(s: Store, r: BatchReceipt, p: PreparedAttempt) {
    && Has(s, PlanKey(r.request), PlanRecord(r.plan))
    && Has(s, AttemptKey(p.attempt.id, PreparedKind), PreparedRecord(p))
    && Has(s, AttemptKey(p.attempt.id, DispatchKind), ClaimRecord(ExpectedClaim(p)))
  }

  class Dispatcher {
    const shared: SharedStore
    const cache: BC.Cache
    const policy: string
    var log: seq<Effect>

    ghost predicate Valid()
      reads this, shared, cache
    {
      Coherent(shared.store) && cache.Valid() && (shared as object) != this && (cache as object) != this
      && (cache as object) != shared
    }

    constructor (s: SharedStore, c: BC.Cache, p: string)
      requires Coherent(s.store) && c.Valid() && (c as object) != s
      ensures shared == s && cache == c && policy == p && log == [] && Valid()
    {
      shared, cache, policy, log := s, c, p, [];
    }

    method Save(r: BatchReceipt, d: Durability) returns (ok: bool)
      requires Valid()
      modifies cache
      ensures Valid() && (ok ==> ValidReceipt(r))
      ensures (cache.files, ok) == SavedIn(old(cache.files), r, d)
    {
      hide Coherent, ValidReceipt, BC.Saves, BC.CanAdvance;
      var error := cache.SaveBatch(r, d.durable, d.renamed);
      ok := error.None?;
    }

    /** Everything before the claim: nothing shared is written before the announcement, and the local copy never says
        less than what was shared. */
    method Announce(r: BatchReceipt, input: FleetInput, g: Gates, w: World)
      returns (error: Option<DispatchError>, marked: bool)
      requires Valid() && log == [] && r.attempts != [] && Sane(w)
      modifies this`log, cache, shared
      ensures Valid() && log <= AllEffects(input)[..4] && Extends(old(shared.store), shared.store)
      ensures Course(|log|, error, shared.store, cache.files)
              == ToClaim(r, input, g, w, policy, old(shared.store), old(cache.files))
      ensures error.None? ==> log == AllEffects(input)[..4]
      ensures error.None? ==> Has(shared.store, PlanKey(r.request), PlanRecord(r.plan))
                              && Has(shared.store, AttemptKey(LastOf(r).id, PreparedKind),
                                     PreparedRecord(PreparedOf(r, input)))
      ensures |log| < 2 ==> shared.store == old(shared.store)
      ensures marked <==> |log| >= 3 && g.kept
    {
      hide Coherent, ValidReceipt, BC.Saves, BC.CanAdvance, BC.Admits, MayPrepare, PreparesIn, BC.Cache.Valid;
      var ok := Save(r, w.prepared);
      if !ok {
        return Some(CacheFailed), false;
      }
      log := log + [SavedPrepared];
      if !g.announced {
        return Some(OutputUnavailable), false;
      }
      log := log + [Announced];
      if !g.stillAllowed {
        return Some(NotAllowed), false;
      }
      var failed;
      ghost var view;
      failed, view := shared.Prepare(r, PreparedOf(r, input), policy, w.sharing);
      if failed.Some? {
        return Some(LedgerFailed(failed.value)), false;
      }
      log := log + [SharedPreparation];
      if !g.kept {
        return Some(Cancelled), false;
      }
      ok := Save(WithLast(r, LastOf(r).(state := Dispatched)), w.dispatched);
      if !ok {
        return Some(CacheFailed), true;
      }
      log := log + [SavedDispatched];
      return None, true;
    }

    /** The claim, and nothing else: finding it stored is no permission. */
    method Permit(r: BatchReceipt, p: PreparedAttempt, w: Claiming) returns (won: bool)
      requires Valid()
      modifies shared
      ensures Valid() && Extends(old(shared.store), shared.store)
      ensures var c := ClaimsIn(old(shared.store), ExpectedClaim(p), r.request, policy, w);
              shared.store == c.0 && won == c.1
      ensures won ==> AttemptKey(p.attempt.id, DispatchKind) !in old(shared.store)
                      && Has(shared.store, AttemptKey(p.attempt.id, DispatchKind), ClaimRecord(ExpectedClaim(p)))
    {
      hide Coherent, BC.Saves, ClaimsIn, ClaimOn;
      var claim := ExpectedClaim(p);
      var error;
      ghost var view;
      won, error, view := shared.Claim(claim, r.request, policy, w);
    }

    /** Both attempts to record the answer of the one call, whichever of them fails, and only then the inspection of the
        workers that it reports. */
    method Send(receipt: BatchReceipt, p: PreparedAttempt, reply: Reply, inspection: Inspection, w: World)
      returns (result: AttemptResult, cached: bool, recorded: bool, observation: Option<FW.InspectionError>)
      requires Valid() && receipt.attempts != [] && p.digest == Digest(receipt.plan) && p.attempt == LastOf(receipt)
      requires Sane(w)
      modifies cache, shared
      ensures Valid() && Extends(old(shared.store), shared.store) && result.dispatched
      ensures result.receipt.attempts != []
      ensures Concluded(receipt, p, reply, inspection, w, old(shared.store), shared.store, recorded, observation,
                        result)
      ensures (cache.files, cached) == SavedIn(old(cache.files), result.receipt, w.answered)
      ensures recorded ==> ResponseAt(shared.store, p.attempt.id).Some?
      ensures observation.None? ==> forall w | w in result.workers :: w.status == Allocated
    {
      hide Coherent, Normalized, ResponseOf, BC.Saves, BC.Admits, Observed, RecordsIn, RecordOn, BC.Cache.Valid,
           ResponseJustified;
      var response := Respond(receipt.plan, p, reply);
      result := AttemptResult(WithLast(receipt, response.attempt), response.workers, true);
      cached := Save(result.receipt, w.answered);
      var error;
      ghost var view;
      error, view := shared.RecordResponse(response, receipt.request, w.recording);
      recorded := error.None?;
      var workers;
      workers, observation := Inspect(receipt.plan, response, inspection);
      result := result.(workers := workers);
    }

    /** `Dispatch`. CreateFleet is called at most once, after every other effect in its order, with exactly the input
        that the shared preparation and claim pin; only this process's own acknowledged claim permits it. Whatever
        comes back is normalised against the prepared attempt and becomes the receipt's last attempt,
        recorded before the
        workers it reports are inspected. Success means that it was recorded twice, is bounded, and that every reported
        worker was then found allocated. */
    method Dispatch(receipt: BatchReceipt, planUnchanged: bool, g: Gates, w: World, reply: Reply,
                    inspection: Inspection)
      returns (result: AttemptResult, error: Option<DispatchError>, cached: bool, recorded: bool,
               observation: Option<FW.InspectionError>)
      requires Valid() && log == [] && Sane(w)
      modifies this`log, cache, shared
      ensures Valid() && Extends(old(shared.store), shared.store)
      ensures result.dispatched <==> |log| == 6
      ensures |log| < 2 ==> shared.store == old(shared.store)
      ensures log != [] ==> receipt.attempts != [] && BuildFleetInput(receipt.plan, LastOf(receipt)).Some?
                            && log <= AllEffects(BuildFleetInput(receipt.plan, LastOf(receipt)).value)
      ensures var c := ToCall(receipt, planUnchanged, g, w, policy, old(shared.store), old(cache.files));
              && |log| == c.steps
              && if c.error.Some? then
                   && error == c.error && shared.store == c.store && cache.files == c.files && !cached && !recorded
                   && observation.None? && result.workers == []
                   && (receipt.attempts != [] ==>
                         result.receipt == if c.steps >= 3 && g.kept
                                           then WithLast(receipt, LastOf(receipt).(state := Dispatched)) else receipt)
                 else
                   && receipt.attempts != [] && BuildFleetInput(receipt.plan, LastOf(receipt)).Some?
                   && result.receipt.attempts != []
                   && (cache.files, cached) == SavedIn(c.files, result.receipt, w.answered)
                   && error == Final(cached, recorded, !g.finished, observation, reply.refused,
                                     LastOf(result.receipt).state)
                   && Concluded(receipt, PreparedOf(receipt, BuildFleetInput(receipt.plan, LastOf(receipt)).value),
                                reply,
                                inspection, w, c.store, shared.store, recorded, observation, result)
      ensures result.dispatched ==>
                var p := PreparedOf(receipt, BuildFleetInput(receipt.plan, LastOf(receipt)).value);
                Evident(shared.store, receipt, p) && AttemptKey(p.attempt.id, DispatchKind) !in old(shared.store)
                && (recorded ==> ResponseAt(shared.store, p.attempt.id).Some?)
      ensures error.None? ==> recorded && result.receipt.attempts != [] && LastOf(result.receipt).state != Unknown
                              && !reply.refused && forall w | w in result.workers :: w.status == Allocated
      ensures !result.dispatched ==> result.workers == [] && error.Some? && !recorded
    {
      hide Coherent, ValidReceipt, BuildFleetInput, Concluded, BC.Saves, BC.Admits, Claimed, SavedIn, Refusal, Evident,
           BC.Cache.Valid;
      result, cached, recorded, observation := AttemptResult(receipt, [], false), false, false, None;
      var input;
      error, input := Consider(receipt, planUnchanged, g);
      if error.Some? {
        return;
      }
      var marked;
      error, marked := Approach(receipt, input, g, w);
      if marked {
        result := result.(receipt := WithLast(receipt, LastOf(receipt).(state := Dispatched)));
      }
      if error.Some? {
        return;
      }
      ghost var sent := shared.store;
      result, cached, recorded, observation := Send(receipt, PreparedOf(receipt, input), reply, inspection, w);
      EvidentStays(sent, shared.store, receipt, PreparedOf(receipt, input));
      error := Final(cached, recorded, !g.finished, observation, reply.refused, LastOf(result.receipt).state);
    }

    /** The checks before anything is written. */
    method Consider(receipt: BatchReceipt, planUnchanged: bool, g: Gates)
      returns (error: Option<DispatchError>, input: FleetInput)
      ensures error == Refusal(receipt, planUnchanged, g)
      ensures error.None? ==>
                && receipt.attempts != [] && receipt.digest == Digest(receipt.plan)
                && BuildFleetInput(receipt.plan, LastOf(receipt)) == Some(input)
    {
      hide ValidReceipt, BuildFleetInput;
      input := *;
      var valid := Receipt.Validate(receipt);
      if !valid {
        return Some(InvalidReceipt), input;
      }
      ValidDigest(receipt);
      if !g.allowed {
        return Some(NotAllowed), input;
      }
      if LastOf(receipt).state != Prepared {
        return Some(AlreadyDispatched), input;
      }
      if !planUnchanged {
        return Some(ParametersChanged), input;
      }
      var built := BuildFleetInput(receipt.plan, LastOf(receipt));
      if built.None? {
        return Some(InputInvalid), input;
      }
      if !g.foundation {
        return Some(NotAllowed), built.value;
      }
      return None, built.value;
    }

    /** Everything from the first local copy to the moment before the call. */
    method Approach(receipt: BatchReceipt, input: FleetInput, g: Gates, w: World)
      returns (error: Option<DispatchError>, marked: bool)
      requires Valid() && log == [] && receipt.attempts != [] && Sane(w)
      modifies this`log, cache, shared
      ensures Valid() && Extends(old(shared.store), shared.store) && log <= AllEffects(input)
      ensures Course(|log|, error, shared.store, cache.files)
              == Claimed(receipt, input, g, w, policy, old(shared.store), old(cache.files))
      ensures |log| < 2 ==> shared.store == old(shared.store)
      ensures marked <==> |log| >= 3 && g.kept
      ensures error.None? ==> |log| == 6 && Evident(shared.store, receipt, PreparedOf(receipt, input))
                              && AttemptKey(LastOf(receipt).id, DispatchKind) !in old(shared.store)
      ensures error.Some? ==> |log| < 6
    {
      hide Coherent, ValidReceipt, BC.Saves, BC.Admits, ToClaim, ClaimsIn, BC.Cache.Valid;
      var p := PreparedOf(receipt, input);
      error, marked := Announce(receipt, input, g, w);
      if error.Some? {
        return;
      }
      if !g.allowedToClaim {
        error := Some(NotAllowed);
        return;
      }
      var won := Permit(receipt, p, w.claiming);
      if !won {
        error := Some(AllocationUnknown);
        return;
      }
      log := log + [ClaimWon];
      if !g.keptOn || !g.inTime {
        error := Some(if !g.keptOn then Cancelled else NotAllowed);
        return;
      }
      log := log + [Sent(input)];
    }
  }

  /** The one error that is reported of all that went wrong after the call. */
  function Final(cached: bool, recorded: bool, cancelled: bool, observation: Option<FW.InspectionError>, refused: bool,
                 state: AttemptState)
    : (error: Option<DispatchError>)
    ensures error.None? <==> cached && recorded && !cancelled && observation.None? && !refused && state != Unknown
    ensures error == Some(CacheFailed) <==> !cached
    ensures error == Some(LedgerFailed(Unavailable)) <==> cached && !recorded
    ensures error == Some(Cancelled) <==> cached && recorded && cancelled
    ensures cached && recorded && !cancelled && observation.Some? ==>
              error == Some(ObservationFailed(observation.value))
    ensures error == Some(ExpiryRefused) <==> cached && recorded && !cancelled && observation.None? && refused
    ensures error == Some(AllocationUnknown) <==>
              cached && recorded && !cancelled && observation.None? && !refused && state == Unknown
  {
    if !cached then Some(CacheFailed)
    else if !recorded then Some(LedgerFailed(Unavailable))
    else if cancelled then Some(Cancelled)
    else if observation.Some? then Some(ObservationFailed(observation.value))
    else if refused then Some(ExpiryRefused)
    else if state == Unknown then Some(AllocationUnknown) else None
  }

  /** The exact inspection of the reported workers; without any there is nothing to ask. */
  method Inspect(plan: LaunchPlan, response: AttemptResponse, inspection: Inspection)
    returns (workers: seq<Worker>, error: Option<FW.InspectionError>)
    ensures Observed(plan, response, inspection, workers, error)
    ensures error.None? ==> forall w | w in workers :: w.status == Allocated
  {
    hide FW.KeepsKnown, FW.KeepsRows, FW.SortedByID, FW.Rows, FW.RowIds, FW.LastSight, FW.InspectionFailure, FW.Reports;
    workers, error := response.workers, None;
    if response.workers != [] {
      var read;
      workers, error, read := FW.VerifyFleetWorkers(plan, response.attempt, response.workers, inspection.instances,
                                                    inspection.volumes);
    }
  }

  /** The reported workers, as inspected: the same identities, with every mapping that was known of them, and what the
      inspection says of each. */
  ghost predicate Observed(plan: LaunchPlan, response: AttemptResponse, inspection: Inspection, workers: seq<Worker>,
                           error: Option<FW.InspectionError>) {
    if response.workers == [] then workers == [] && error.None?
    else
      && FW.WorkerIds(workers) == FW.WorkerIds(response.workers) + Elems(response.attempt.instances)
      && FW.KeepsKnown(response.workers, workers) && FW.SortedByID(workers)
      && FW.Reports(FW.LastSight(plan, response.attempt, response.workers, inspection.instances,
                                 inspection.volumes).workers, workers)
      && error == FW.InspectionFailure(plan, response.attempt, response.workers, inspection.instances,
                                       inspection.volumes)
  }

  /** The answer, normalised; a rejection counts only when the SDK shows exactly one try. */
  method Respond(plan: LaunchPlan, p: PreparedAttempt, reply: Reply) returns (response: AttemptResponse)
    requires p.digest == Digest(plan)
    ensures ResponseOf(p, reply.out, reply.err, reply.sdkAttempts, response)
    ensures response.request == p.request && response.attempt.id == p.attempt.id
  {
    hide Normalized, ResponseOf;
    var observed, workers := NormalizeFleetResponse(plan, p.attempt, reply.out, reply.err);
    ghost var normal := observed;
    if observed.state == Rejected && reply.sdkAttempts != 1 {
      observed := observed.(state := Unknown);
    }
    response := AttemptResponse(p.request, p.digest, p.input, observed, workers);
    ResponseBuilt(p, reply, normal, response);
    SameIdentity(plan, p.attempt, reply, normal, workers);
  }

  /** The result is the response that the reply calls for, with its workers as inspected; that response was to be
      recorded. */
  ghost predicate Concluded(receipt: BatchReceipt, p: PreparedAttempt, reply: Reply, inspection: Inspection, w: World,
                            before: Store, after: Store, recorded: bool, observation: Option<FW.InspectionError>,
                            result: AttemptResult)
  {
    receipt.attempts != [] && exists response ::
      && ResponseOf(p, reply.out, reply.err, reply.sdkAttempts, response)
      && result.receipt == WithLast(receipt, response.attempt)
      && Observed(receipt.plan, response, inspection, result.workers, observation)
      && RecordsIn(before, response, receipt.request, w.recording).0 == after
      && (recorded <==> RecordsIn(before, response, receipt.request, w.recording).1.None?)
  }

  lemma EvidentStays(s: Store, t: Store, r: BatchReceipt, p: PreparedAttempt)
    requires Extends(s, t) && Evident(s, r, p)
    ensures Evident(t, r, p)
  {
  }

  lemma ResponseBuilt(p: PreparedAttempt, reply: Reply, normal: AttemptReceipt, response: AttemptResponse)
    requires Normalized(p.digest.plan, p.attempt, reply.out, reply.err, normal, response.workers)
    requires response == AttemptResponse(p.request, p.digest, p.input, Downgraded(normal, reply.sdkAttempts),
                                         response.workers)
    ensures ResponseOf(p, reply.out, reply.err, reply.sdkAttempts, response)
  {
    hide Normalized;
  }

  lemma SameIdentity(plan: LaunchPlan, attempt: AttemptReceipt, reply: Reply, normal: AttemptReceipt,
                     workers: seq<Worker>)
    requires Normalized(plan, attempt, reply.out, reply.err, normal, workers)
    ensures normal.id == attempt.id
  {
    hide StateOf, FleetOf, ErrorsOf, KnownIds, ChoiceOf, Fleet.Answered, Sorted;
  }

  lemma ValidDigest(r: BatchReceipt)
    requires ValidReceipt(r)
    ensures r.attempts != [] && r.digest == Digest(r.plan)
  {
  }
}
