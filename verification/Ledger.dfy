/** Reconstructing a launch from its shared records.
    One `Load` reads every key at most once, so its result is a function of the view those reads produced:
    the view may mix moments, and any read may have failed. */
module Ledger {
  import opened Basics
  import opened LaunchTypes
  import opened Receipt
  import opened Evidence

  datatype Kind = PreparedKind | DispatchKind | ResponseKind

  datatype Key = PlanKey(request: string) | AttemptKey(id: AttemptID, kind: Kind)

  /** A stored object; `Undecodable` is one that no strict decoder accepts. */
  datatype Record =
    | PlanRecord(plan: LaunchPlan) | PreparedRecord(prepared: PreparedAttempt)
    | ClaimRecord(claim: DispatchClaim) | ResponseRecord(response: AttemptResponse) | Undecodable

  datatype LedgerError = NotFound | Conflict | Corrupt | Unavailable

  datatype Reading = Found(record: Record) | Failed(error: LedgerError)

  /** What reads answer: the keys read one by one, and one answer for every other key. */
  datatype View = View(known: map<Key, Reading>, rest: Reading)

  function Look(v: View, k: Key): Reading {
    if k in v.known then v.known[k] else v.rest
  }

  /** The view of a client that has read nothing yet. */
  const UNREAD := View(map[], Failed(Unavailable))

  /** The view in which every read happens at one moment and none fails. */
  ghost function Atomic(store: map<Key, Record>): View {
    View(map k | k in store :: Found(store[k]), Failed(NotFound))
  }

  // ---------------------------------------------------------------- decisions taken on a load

  /** The checks `Prepare` makes before it touches the store. */
  predicate MayPrepare(r: BatchReceipt, p: PreparedAttempt, policy: string) {
    && ValidPlan(r.plan) && r.plan.policy == policy && ValidReceipt(r) && |r.attempts| <= MAX_LAUNCH_ATTEMPTS
    && r.attempts[|r.attempts| - 1] == p.attempt
    && ValidPrepared(r.(attempts := r.attempts[..|r.attempts| - 1]), p)
  }

  /** Whether `Prepare` may publish the attempt: shared history must be the receipt's own, attempt for attempt. */
  function PrepareVerdict(loaded: Loaded, r: BatchReceipt, p: PreparedAttempt): (e: Option<LedgerError>)
    requires r.attempts != []
    ensures loaded.NoPlan? ==> e == Some(loaded.cause)
    ensures loaded.Loaded? && loaded.error.Some? ==> e == loaded.error
    ensures loaded.Loaded? && loaded.error.None? ==>
              var shared, n := loaded.snapshot.receipt, |r.attempts| - 1;
              && (e == None || e == Some(Conflict))
              && (e == None <==>
                    && shared.digest == r.digest && |shared.attempts| >= n && shared.attempts[..n] == r.attempts[..n]
                    && if p.attempt.id in loaded.snapshot.prepared
                       then |shared.attempts| == n + 1 && loaded.snapshot.prepared[p.attempt.id] == p
                       else |shared.attempts| == n)
  {
    match loaded
    case NoPlan(e) => Some(e)
    case Loaded(s, error) =>
      var prior := r.attempts[..|r.attempts| - 1];
      if error.Some? then error
      else if s.receipt.digest != r.digest then Some(Conflict)
      else if p.attempt.id in s.prepared then
        if s.prepared[p.attempt.id] != p || |s.receipt.attempts| != |r.attempts|
           || s.receipt.attempts[..|r.attempts| - 1] != prior
        then Some(Conflict) else None
      else if s.receipt.attempts != prior then Some(Conflict) else None
  }

  datatype ClaimVerdict = MayClaim | AlreadyClaimed | NoClaim(error: LedgerError)

  /** Whether `Claim` may write: only for the last attempt of the shared history, and only while unclaimed. */
  function ClaimOn(loaded: Loaded, claim: DispatchClaim, policy: string): (verdict: ClaimVerdict)
    ensures loaded.NoPlan? ==> verdict == NoClaim(loaded.cause)
    ensures loaded.Loaded? && loaded.error.Some? ==> verdict == NoClaim(loaded.error.value)
    ensures loaded.Loaded? && loaded.error.None? ==>
              var s, id := loaded.snapshot, claim.attempt;
              var pinned := id in s.prepared
                            && claim == DispatchClaim(s.prepared[id].request, s.prepared[id].attempt.id,
                                                      s.prepared[id].digest, s.prepared[id].input,
                                                      s.prepared[id].attempt.token);
              var latest := s.receipt.attempts != [] && s.receipt.attempts[|s.receipt.attempts| - 1].id == id;
              && (verdict == MayClaim <==> s.receipt.plan.policy == policy && pinned && id !in s.claims && latest)
              && (verdict == AlreadyClaimed <==> s.receipt.plan.policy == policy && pinned && id in s.claims)
              && (verdict == NoClaim(Corrupt) <==> s.receipt.plan.policy == policy && !pinned)
              && (verdict == NoClaim(Conflict) <==>
                    s.receipt.plan.policy != policy || (pinned && id !in s.claims && !latest))
  {
    match loaded
    case NoPlan(e) => NoClaim(e)
    case Loaded(s, error) =>
      if error.Some? then NoClaim(error.value)
      else if s.receipt.plan.policy != policy then NoClaim(Conflict)
      else if claim.attempt !in s.prepared || claim != ExpectedClaim(s.prepared[claim.attempt]) then NoClaim(Corrupt)
      else if claim.attempt in s.claims then AlreadyClaimed
      else if LastID(s.receipt.attempts) != Some(claim.attempt) then NoClaim(Conflict)
      else MayClaim
  }

  /** The history of an attempt: what stands before it. */
  function UpTo(attempts: seq<AttemptReceipt>, id: AttemptID): (prior: seq<AttemptReceipt>)
    ensures prior <= attempts && (prior == attempts || attempts[|prior|].id == id)
    ensures forall k | 0 <= k < |prior| :: attempts[k].id != id
  {
    if attempts == [] || attempts[0].id == id then [] else [attempts[0]] + UpTo(attempts[1..], id)
  }

  /** Whether `RecordResponse` may publish: the attempt is prepared and claimed, and the response fits its history. */
  function RecordOn(loaded: Loaded, response: AttemptResponse): (e: Option<LedgerError>)
    ensures loaded.NoPlan? ==> e == Some(loaded.cause)
    ensures loaded.Loaded? && loaded.error.Some? ==> e == loaded.error
    ensures loaded.Loaded? && loaded.error.None? ==>
              var s, id := loaded.snapshot, response.attempt.id;
              && (e == None || e == Some(Corrupt))
              && (e == None <==>
                    && id in s.prepared && id in s.claims && s.claims[id] == ExpectedClaim(s.prepared[id])
                    && ValidResponse(s.receipt.(attempts := UpTo(s.receipt.attempts, id)), s.prepared[id], response))
  {
    match loaded
    case NoPlan(e) => Some(e)
    case Loaded(s, error) =>
      var id := response.attempt.id;
      if error.Some? then error
      else if id !in s.prepared || id !in s.claims || s.claims[id] != ExpectedClaim(s.prepared[id]) then Some(Corrupt)
      else
        var prior := s.receipt.(attempts := UpTo(s.receipt.attempts, id));
        if !ValidResponse(prior, s.prepared[id], response) then Some(Corrupt) else None
  }

  datatype Outcome<+T> = Ok(value: T) | Err(error: LedgerError)

  function ReadPlan(v: View, request: string): Outcome<LaunchPlan> {
    match Look(v, PlanKey(request))
    case Found(PlanRecord(p)) => Ok(p)
    case Found(_) => Err(Corrupt)
    case Failed(e) => Err(e)
  }

  function ReadPrepared(v: View, id: AttemptID): Outcome<PreparedAttempt> {
    match Look(v, AttemptKey(id, PreparedKind))
    case Found(PreparedRecord(p)) => Ok(p)
    case Found(_) => Err(Corrupt)
    case Failed(e) => Err(e)
  }

  /** A claim that differs from the prepared pins is corrupt, whatever it says. */
  function ReadClaim(v: View, p: PreparedAttempt, id: AttemptID): Outcome<DispatchClaim> {
    match Look(v, AttemptKey(id, DispatchKind))
    case Found(ClaimRecord(c)) => if c == ExpectedClaim(p) then Ok(c) else Err(Corrupt)
    case Found(_) => Err(Corrupt)
    case Failed(e) => Err(e)
  }

  function ReadResponse(v: View, id: AttemptID): Outcome<AttemptResponse> {
    match Look(v, AttemptKey(id, ResponseKind))
    case Found(ResponseRecord(r)) => Ok(r)
    case Found(_) => Err(Corrupt)
    case Failed(e) => Err(e)
  }

  datatype Snapshot = Snapshot(receipt: BatchReceipt, prepared: map<AttemptID, PreparedAttempt>,
                               claims: map<AttemptID, DispatchClaim>, responses: map<AttemptID, AttemptResponse>)

  /** A load keeps every valid earlier record beside a later error. */
  datatype Loaded = NoPlan(cause: LedgerError) | Loaded(snapshot: Snapshot, error: Option<LedgerError>)

  predicate ValidPlan(plan: LaunchPlan) {
    BuildFleetInput(plan, InitialAttempt(plan)).Some?
  }

  function WithAttempt(s: Snapshot, id: AttemptID, p: PreparedAttempt, a: AttemptReceipt): Snapshot {
    s.(receipt := s.receipt.(attempts := s.receipt.attempts + [a]), prepared := s.prepared[id := p])
  }

  /** A missing preparation cannot hide an orphaned claim or response. */
  function Orphans(v: View, id: AttemptID): Option<LedgerError> {
    match Look(v, AttemptKey(id, DispatchKind))
    case Found(_) => Some(Corrupt)
    case Failed(e) =>
      if e != NotFound then Some(e)
      else match Look(v, AttemptKey(id, ResponseKind))
           case Found(_) => Some(Corrupt)
           case Failed(e') => if e' != NotFound then Some(e') else None
  }

  function AddClaim(s: Snapshot, id: AttemptID, claim: Outcome<DispatchClaim>): Snapshot {
    if claim.Ok? then s.(claims := s.claims[id := claim.value]) else s
  }

  /** One attempt of the chain: preparation, then claim, then response. */
  ghost function LoadAttempt(v: View, s: Snapshot, id: AttemptID, p: PreparedAttempt): (r: Loaded)
    ensures r.Loaded?
  {
    var claim := ReadClaim(v, p, id);
    var a := if claim.Ok? then p.attempt.(state := Dispatched) else p.attempt;
    var s1 := AddClaim(WithAttempt(s, id, p, a), id, claim);
    match ReadResponse(v, id)
    case Ok(response) =>
      if !ValidResponse(s.receipt, p, response) then Loaded(s1, Some(Corrupt))
      else
        var b := if claim.Ok? then response.attempt else response.attempt.(state := Unknown);
        var s2 := AddClaim(WithAttempt(s, id, p, b), id, claim).(responses := s.responses[id := response]);
        Loaded(s2, if claim.Ok? then None else if claim.error == NotFound then Some(Corrupt) else Some(claim.error))
    case Err(e) =>
      Loaded(s1, if e != NotFound then Some(e)
                 else if claim.Err? && claim.error != NotFound then Some(claim.error) else None)
  }

  ghost function LoadChain(v: View, s: Snapshot, parent: Option<AttemptID>, n: nat): (r: Loaded)
    requires n <= MAX_LAUNCH_ATTEMPTS
    ensures r.Loaded?
    decreases MAX_LAUNCH_ATTEMPTS - n
  {
    var id := NextID(s.receipt.request, parent);
    match ReadPrepared(v, id)
    case Err(e) => Loaded(s, if e == NotFound then Orphans(v, id) else Some(e))
    case Ok(p) =>
      if n == MAX_LAUNCH_ATTEMPTS || p.attempt.id != id || !ValidPrepared(s.receipt, p) then Loaded(s, Some(Corrupt))
      else
        var next := LoadAttempt(v, s, id, p);
        if next.error.Some? then next else LoadChain(v, next.snapshot, Some(id), n + 1)
  }

  function EmptySnapshot(plan: LaunchPlan): Snapshot {
    Snapshot(History(plan, []), map[], map[], map[])
  }

  ghost function LoadFrom(v: View, request: string): Loaded {
    if !ValidRequest(request) then NoPlan(Corrupt)
    else match ReadPlan(v, request)
         case Err(e) => NoPlan(e)
         case Ok(plan) =>
           if plan.request != request || !ValidPlan(plan) then NoPlan(Corrupt)
           else LoadChain(v, EmptySnapshot(plan), None, 0)
  }

  /** `Load`: the loop over attempts, growing the snapshot record by record. */
  method Load(v: View, request: string) returns (r: Loaded)
    ensures r == LoadFrom(v, request)
  {
    hide ValidPrepared, ValidResponse, ValidPlan;
    if !ValidRequest(request) {
      return NoPlan(Corrupt);
    }
    var plan := ReadPlan(v, request);
    if plan.Err? {
      return NoPlan(plan.error);
    }
    if plan.value.request != request || !ValidPlan(plan.value) {
      return NoPlan(Corrupt);
    }
    var s := EmptySnapshot(plan.value);
    var parent: Option<AttemptID> := None;
    var n := 0;
    while true
      invariant 0 <= n <= MAX_LAUNCH_ATTEMPTS
      invariant LoadFrom(v, request) == LoadChain(v, s, parent, n)
      decreases MAX_LAUNCH_ATTEMPTS - n
    {
      var id := NextID(s.receipt.request, parent);
      var prepared := ReadPrepared(v, id);
      if prepared.Err? {
        return Loaded(s, if prepared.error == NotFound then Orphans(v, id) else Some(prepared.error));
      }
      var p := prepared.value;
      if n == MAX_LAUNCH_ATTEMPTS || p.attempt.id != id || !ValidPrepared(s.receipt, p) {
        return Loaded(s, Some(Corrupt));
      }
      var prior := s;
      s := WithAttempt(s, id, p, p.attempt);
      var claim := ReadClaim(v, p, id);
      if claim.Ok? {
        s := AddClaim(WithAttempt(prior, id, p, p.attempt.(state := Dispatched)), id, claim);
      }
      var response := ReadResponse(v, id);
      if response.Ok? {
        if !ValidResponse(prior.receipt, p, response.value) {
          return Loaded(s, Some(Corrupt));
        }
        var a := if claim.Ok? then response.value.attempt else response.value.attempt.(state := Unknown);
        s := AddClaim(WithAttempt(prior, id, p, a), id, claim).(responses := prior.responses[id := response.value]);
        if claim.Err? {
          return Loaded(s, if claim.error == NotFound then Some(Corrupt) else Some(claim.error));
        }
      } else if response.error != NotFound {
        return Loaded(s, Some(response.error));
      }
      if claim.Err? && claim.error != NotFound {
        return Loaded(s, Some(claim.error));
      }
      parent := Some(id);
      n := n + 1;
    }
  }

  // ---------------------------------------------------------------- what a successful load says

  /** The receipt state that the records of one attempt stand for. */
  ghost function Recorded(v: View, id: AttemptID, p: PreparedAttempt): AttemptReceipt {
    match ReadResponse(v, id)
    case Ok(response) => response.attempt
    case Err(_) => if ReadClaim(v, p, id).Ok? then p.attempt.(state := Dispatched) else p.attempt
  }

  /** `attempts` is the chain of records from the root of the request, each state exactly what they say. */
  ghost predicate Traced(v: View, plan: LaunchPlan, attempts: seq<AttemptReceipt>) {
    attempts == [] ||
    var init, last := attempts[..|attempts| - 1], attempts[|attempts| - 1];
    && Traced(v, plan, init) && last.id == NextID(plan.request, LastID(init)) && RecordsFit(v, plan, init, last)
  }

  /** The records at `last.id` fit the history `init` and stand for `last`. */
  ghost predicate RecordsFit(v: View, plan: LaunchPlan, init: seq<AttemptReceipt>, last: AttemptReceipt) {
    && ReadPrepared(v, last.id).Ok?
    && var p := ReadPrepared(v, last.id).value;
       && ValidPrepared(History(plan, init), p)
       && p.attempt.id == last.id
       && last == Recorded(v, last.id, p)
       && (ReadResponse(v, last.id).Ok? ==>
             ReadClaim(v, p, last.id).Ok? && ValidResponse(History(plan, init), p, ReadResponse(v, last.id).value))
  }

  ghost function AttemptIDs(attempts: seq<AttemptReceipt>): set<AttemptID> {
    if attempts == [] then {} else AttemptIDs(attempts[..|attempts| - 1]) + {attempts[|attempts| - 1].id}
  }

  /** The snapshot maps hold the records of the loaded attempts, all of them and nothing else. */
  ghost predicate Mirrors(v: View, s: Snapshot) {
    && s.prepared.Keys == AttemptIDs(s.receipt.attempts)
    && (forall id | id in s.prepared :: ReadPrepared(v, id) == Ok(s.prepared[id]))
    && (forall id | id in s.claims :: id in s.prepared && ReadClaim(v, s.prepared[id], id) == Ok(s.claims[id]))
    && (forall id | id in s.prepared && id !in s.claims :: ReadClaim(v, s.prepared[id], id) == Err(NotFound))
    && (forall id | id in s.responses :: id in s.prepared && ReadResponse(v, id) == Ok(s.responses[id]))
    && (forall id | id in s.prepared && id !in s.responses :: ReadResponse(v, id) == Err(NotFound))
  }

  ghost predicate Faithful(v: View, s: Snapshot) {
    && s.receipt == History(s.receipt.plan, s.receipt.attempts) && HeaderValid(s.receipt)
    && Traced(v, s.receipt.plan, s.receipt.attempts) && Mirrors(v, s)
  }

  /** Only the last attempt of a recorded chain may be unbounded. */
  lemma TracedValid(v: View, plan: LaunchPlan, attempts: seq<AttemptReceipt>)
    requires Traced(v, plan, attempts) && attempts != []
    ensures ValidReceipt(History(plan, attempts))
  {
    hide ValidReceipt, ValidPrepared, ValidResponse, ReadPrepared, ReadClaim, ReadResponse;
    var init, last := attempts[..|attempts| - 1], attempts[|attempts| - 1];
    var p := ReadPrepared(v, last.id).value;
    var r := History(plan, init);
    assert attempts == init + [last];
    assert r.(attempts := init + [last]) == History(plan, attempts);
    if ReadResponse(v, last.id).Ok? {
      ResponseValid(r, p, ReadResponse(v, last.id).value);
    } else {
      ClaimedFits(r, p);
    }
  }

  lemma TracedAppend(v: View, plan: LaunchPlan, init: seq<AttemptReceipt>, last: AttemptReceipt)
    ensures Traced(v, plan, init + [last]) <==>
              && Traced(v, plan, init)
              && last.id == NextID(plan.request, LastID(init))
              && RecordsFit(v, plan, init, last)
    ensures AttemptIDs(init + [last]) == AttemptIDs(init) + {last.id}
  {
    hide RecordsFit;
    assert (init + [last])[..|init|] == init;
  }

  /** What a successful step of the loop has read and accepted. */
  lemma AttemptReads(v: View, s: Snapshot, id: AttemptID, p: PreparedAttempt)
    requires LoadAttempt(v, s, id, p).error.None?
    ensures var t := LoadAttempt(v, s, id, p).snapshot;
            && t.receipt == s.receipt.(attempts := s.receipt.attempts + [Recorded(v, id, p)])
            && t.prepared == s.prepared[id := p]
            && t.claims == (if ReadClaim(v, p, id).Ok? then s.claims[id := ReadClaim(v, p, id).value] else s.claims)
            && t.responses
               == (if ReadResponse(v, id).Ok? then s.responses[id := ReadResponse(v, id).value] else s.responses)
    ensures ReadResponse(v, id).Ok? ==>
              ReadClaim(v, p, id).Ok? && ValidResponse(s.receipt, p, ReadResponse(v, id).value)
    ensures ReadResponse(v, id).Err? ==> ReadResponse(v, id).error == NotFound
    ensures ReadClaim(v, p, id).Err? ==> ReadClaim(v, p, id).error == NotFound
  {
    hide ValidResponse, ReadClaim, ReadResponse;
  }

  lemma AttemptMirrors(v: View, s: Snapshot, id: AttemptID, p: PreparedAttempt)
    requires Mirrors(v, s) && id !in AttemptIDs(s.receipt.attempts)
    requires ReadPrepared(v, id) == Ok(p)
    requires LoadAttempt(v, s, id, p).error.None?
    requires Recorded(v, id, p).id == id
    ensures Mirrors(v, LoadAttempt(v, s, id, p).snapshot)
  {
    hide LoadAttempt, ValidResponse, ReadPrepared, ReadClaim, ReadResponse, AttemptIDs, Recorded, Traced, RecordsFit;
    AttemptReads(v, s, id, p);
    TracedAppend(v, s.receipt.plan, s.receipt.attempts, Recorded(v, id, p));
  }

  /** A recorded attempt that loads without error extends the chain by exactly what its records say. */
  lemma AttemptLoads(v: View, s: Snapshot, id: AttemptID, p: PreparedAttempt)
    requires Faithful(v, s) && id == NextID(s.receipt.request, LastID(s.receipt.attempts))
             && id !in AttemptIDs(s.receipt.attempts)
    requires ReadPrepared(v, id) == Ok(p) && p.attempt.id == id && ValidPrepared(s.receipt, p)
    requires LoadAttempt(v, s, id, p).error.None?
    ensures var t := LoadAttempt(v, s, id, p).snapshot;
            && Faithful(v, t) && t.receipt.plan == s.receipt.plan
            && t.receipt.attempts == s.receipt.attempts + [Recorded(v, id, p)] && LastID(t.receipt.attempts) == Some(id)
  {
    AttemptReads(v, s, id, p);
    if ReadResponse(v, id).Ok? {
      ResponseValid(s.receipt, p, ReadResponse(v, id).value);
    }
    AttemptMirrors(v, s, id, p);
    TracedAppend(v, s.receipt.plan, s.receipt.attempts, Recorded(v, id, p));
    hide LoadAttempt, ValidPrepared, ValidResponse, ReadPrepared, ReadClaim, ReadResponse, ValidReceipt, Mirrors,
         Traced, AttemptIDs;
  }

  lemma {:induction false} TracedDepth(v: View, plan: LaunchPlan, attempts: seq<AttemptReceipt>)
    requires Traced(v, plan, attempts)
    ensures ParentDepth(LastID(attempts)) == |attempts|
    ensures forall id | id in AttemptIDs(attempts) :: id.request == plan.request && Depth(id) <= |attempts|
  {
    if attempts != [] {
      TracedDepth(v, plan, attempts[..|attempts| - 1]);
    }
  }

  /** The rest of a load from a faithful snapshot ends in a faithful snapshot whose successor has no record at all. */
  lemma {:induction false} ChainLoads(v: View, s: Snapshot, n: nat)
    requires Faithful(v, s) && n == |s.receipt.attempts| <= MAX_LAUNCH_ATTEMPTS
    ensures var r := LoadChain(v, s, LastID(s.receipt.attempts), n);
            r.error.None? ==>
              && Faithful(v, r.snapshot) && r.snapshot.receipt.plan == s.receipt.plan
              && |r.snapshot.receipt.attempts| <= MAX_LAUNCH_ATTEMPTS
              && s.receipt.attempts <= r.snapshot.receipt.attempts
              && Ended(v, r.snapshot)
    decreases MAX_LAUNCH_ATTEMPTS - n
  {
    hide ValidPrepared, ValidReceipt, LoadAttempt, Mirrors, ReadPrepared, HeaderValid, Traced, Orphans, AttemptIDs,
         Recorded, TerminalChain;
    var parent := LastID(s.receipt.attempts);
    var id := NextID(s.receipt.request, parent);
    var r := LoadChain(v, s, parent, n);
    TracedDepth(v, s.receipt.plan, s.receipt.attempts);
    if r.error.None? && ReadPrepared(v, id).Ok? {
      var p := ReadPrepared(v, id).value;
      var next := LoadAttempt(v, s, id, p);
      AttemptLoads(v, s, id, p);
      ChainLoads(v, next.snapshot, n + 1);
    }
  }

  /** The slot after a history has no preparation, claim or response. */
  predicate Ended(v: View, s: Snapshot) {
    var id := NextID(s.receipt.request, LastID(s.receipt.attempts));
    ReadPrepared(v, id) == Err(NotFound) && Orphans(v, id).None?
  }

  /** On any view whatever, corrupt or mixed, a load without error is a valid history: the snapshot is exactly
      the records read, every attempt but the last is bounded, and nothing follows the last. */
  lemma LoadFaithful(v: View, request: string)
    ensures var r := LoadFrom(v, request);
            r.Loaded? && r.error.None? ==>
              var s := r.snapshot;
              && Faithful(v, s) && Ended(v, s)
              && s.receipt.request == request && ReadPlan(v, request) == Ok(s.receipt.plan) && ValidPlan(s.receipt.plan)
              && |s.receipt.attempts| <= MAX_LAUNCH_ATTEMPTS
              && (s.receipt.attempts != [] ==> ValidReceipt(s.receipt))
  {
    hide LoadChain, Traced, LoadAttempt, ValidReceipt;
    var r := LoadFrom(v, request);
    if r.Loaded? && r.error.None? {
      var plan := ReadPlan(v, request).value;
      EmptyFaithful(v, plan);
      ChainLoads(v, EmptySnapshot(plan), 0);
      if r.snapshot.receipt.attempts != [] {
        TracedValid(v, plan, r.snapshot.receipt.attempts);
      }
    }
  }

  lemma FailedAttempt(v: View, s: Snapshot, id: AttemptID, p: PreparedAttempt)
    ensures var t := LoadAttempt(v, s, id, p).snapshot;
            && t.receipt.plan == s.receipt.plan && |t.receipt.attempts| == |s.receipt.attempts| + 1
            && t.receipt.attempts[..|s.receipt.attempts|] == s.receipt.attempts
  {
    hide ValidResponse, ReadClaim, ReadResponse;
  }

  lemma {:induction false} ChainKeeps(v: View, s: Snapshot, n: nat)
    requires Faithful(v, s) && n == |s.receipt.attempts| <= MAX_LAUNCH_ATTEMPTS
    ensures var r := LoadChain(v, s, LastID(s.receipt.attempts), n).snapshot.receipt;
            r.plan == s.receipt.plan && s.receipt.attempts <= r.attempts
            && (|r.attempts| > n ==> Traced(v, r.plan, r.attempts[..|r.attempts| - 1]))
    decreases MAX_LAUNCH_ATTEMPTS - n
  {
    hide ValidPrepared, ValidReceipt, LoadAttempt, Mirrors, ReadPrepared, HeaderValid, Traced, Orphans, AttemptIDs,
         Recorded, TerminalChain;
    var id := NextID(s.receipt.request, LastID(s.receipt.attempts));
    TracedDepth(v, s.receipt.plan, s.receipt.attempts);
    if ReadPrepared(v, id).Ok? {
      var p := ReadPrepared(v, id).value;
      if n < MAX_LAUNCH_ATTEMPTS && p.attempt.id == id && ValidPrepared(s.receipt, p) {
        FailedAttempt(v, s, id, p);
        if LoadAttempt(v, s, id, p).error.None? {
          AttemptLoads(v, s, id, p);
          ChainKeeps(v, LoadAttempt(v, s, id, p).snapshot, n + 1);
          var all := LoadChain(v, s, LastID(s.receipt.attempts), n).snapshot.receipt.attempts;
          assert all[..n] == s.receipt.attempts;
        }
      }
    }
  }

  /** A load that ends in an error still returns the plan and every attempt before the one it failed on, each exactly
      what its records say. */
  lemma EarlierKept(v: View, request: string)
    ensures var r := LoadFrom(v, request);
            r.Loaded? ==>
              var receipt := r.snapshot.receipt;
              && ReadPlan(v, request) == Ok(receipt.plan) && ValidPlan(receipt.plan)
              && (receipt.attempts != [] ==> Traced(v, receipt.plan, receipt.attempts[..|receipt.attempts| - 1]))
  {
    hide LoadChain, Traced, LoadAttempt, ValidReceipt;
    var r := LoadFrom(v, request);
    if r.Loaded? {
      var plan := ReadPlan(v, request).value;
      EmptyFaithful(v, plan);
      ChainKeeps(v, EmptySnapshot(plan), 0);
    }
  }

  lemma EmptyFaithful(v: View, plan: LaunchPlan)
    requires ValidPlan(plan)
    ensures Faithful(v, EmptySnapshot(plan))
  {
  }
}
