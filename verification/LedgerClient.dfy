/** The ledger operations of one client, as they run: between any two of its own requests other clients may add
    records of their own. */
module LedgerClient {
  import opened Basics
  import opened LaunchTypes
  import opened Receipt
  import opened Evidence
  import opened Ledger
  import opened Lineage
  import Safety

  /** What becomes of one conditional PUT: whether storage applies it, and whether its reply arrives. */
  datatype Fate = Fate(applied: bool, answered: bool)

  ghost predicate Has(s: Store, key: Key, record: Record) {
    key in s && s[key] == record
  }

  /** An operation that passed or failed its checks: a verdict against it is its error; otherwise its record decides,
      as long as the write was applied and could be read back. */
  ghost predicate Concludes(s: Store, verdict: Option<LedgerError>, key: Key, record: Record, reconciled: bool,
                      error: Option<LedgerError>) {
    if verdict.Some? then error == verdict
    else reconciled ==> (error.None? <==> Has(s, key, record)) && (error.Some? ==> error == Some(Conflict))
  }

  /** What other clients make of the store meanwhile; what they write is justified, as what this client writes is. */
  function Meanwhile(s: Store, others: Store): (t: Store)
    ensures Extends(s, t) && (t == others || t == s)
    ensures Coherent(s) ==> Coherent(t)
    ensures Extends(s, others) && Coherent(others) ==> t == others
  {
    if Extends(s, others) && Coherent(others) then others else s
  }

  /** What others do around one request. */
  datatype Around = Around(before: Store, after: Store)

  /** A write that is reconciled: the fate of its request, the failure of the read after it, and what others do. */
  datatype Writing = Writing(fate: Fate, failure: Option<LedgerError>, put: Around, get: Around)

  /** A conditional request: it creates the object if it is applied before any other, and its reply says so. */
  ghost function PutIn(s: Store, key: Key, record: Record, fate: Fate, o: Around): (Store, Option<LedgerError>) {
    var now := Meanwhile(s, o.before);
    (Meanwhile(if key !in now && fate.applied then now[key := record] else now, o.after),
     if !fate.answered then Some(Unavailable)
     else if key in now then Some(Conflict) else if fate.applied then None else Some(Unavailable))
  }

  ghost function GetIn(s: Store, key: Key, failure: Option<LedgerError>, o: Around): (Store, Reading) {
    var now := Meanwhile(s, o.before);
    (Meanwhile(now, o.after),
     if failure.Some? then Failed(failure.value) else if key in now then Found(now[key]) else Failed(NotFound))
  }

  /** A failed write counts as done when exactly its record is found, and as a conflict when another is. */
  ghost function Reconciled(s: Store, key: Key, record: Record, w: Writing): (Store, Option<LedgerError>) {
    var put := PutIn(s, key, record, w.fate, w.put);
    if put.1.None? then put
    else
      var get := GetIn(put.0, key, w.failure, w.get);
      (get.0,
       match get.1
       case Failed(e) => if e == NotFound then put.1 else Some(e)
       case Found(r) => if r == record then None else Some(Conflict))
  }

  /** The view of a load: what was read, as far as the store of its end can account for it. */
  ghost function Viewed(seen: View, s: Store): View {
    if Sound(seen, s) then seen else UNREAD
  }

  /** What happens around `Prepare`: the write of the plan, the reads of the load, and the write of the record. */
  datatype Preparing = Preparing(plan: Writing, load: Store, seen: View, record: Writing)

  ghost function PreparesIn(s: Store, r: BatchReceipt, p: PreparedAttempt, policy: string, w: Preparing)
    : (Store, Option<LedgerError>) {
    hide LoadFrom, MayPrepare, PrepareVerdict, Reconciled, Coherent;
    if r.attempts == [] || !MayPrepare(r, p, policy) then (s, Some(Corrupt))
    else
      var plan := Reconciled(s, PlanKey(r.request), PlanRecord(r.plan), w.plan);
      if plan.1.Some? then plan
      else
        var now := Meanwhile(plan.0, w.load);
        var verdict := PrepareVerdict(LoadFrom(Viewed(w.seen, now), r.request), r, p);
        if verdict.Some? then (now, verdict)
        else Reconciled(now, AttemptKey(p.attempt.id, PreparedKind), PreparedRecord(p), w.record)
  }

  /** What happens around `Claim`: the reads of the load, and the one write. */
  datatype Claiming = Claiming(load: Store, seen: View, fate: Fate, put: Around)

  /** The claim is won exactly by creating it. */
  ghost function ClaimsIn(s: Store, claim: DispatchClaim, request: string, policy: string, w: Claiming)
    : (Store, bool, Option<LedgerError>) {
    hide LoadFrom, ClaimOn, PutIn, Coherent;
    var now := Meanwhile(s, w.load);
    match ClaimOn(LoadFrom(Viewed(w.seen, now), request), claim, policy)
    case NoClaim(e) => (now, false, Some(e))
    case AlreadyClaimed => (now, false, None)
    case MayClaim =>
      var put := PutIn(now, AttemptKey(claim.attempt, DispatchKind), ClaimRecord(claim), w.fate, w.put);
      (put.0, put.1.None?, if put.1 == Some(Conflict) then None else put.1)
  }

  /** What happens around `RecordResponse`: the reads of the load, and the write. */
  datatype Recording = Recording(load: Store, seen: View, record: Writing)

  ghost function RecordsIn(s: Store, response: AttemptResponse, request: string, w: Recording)
    : (Store, Option<LedgerError>) {
    hide LoadFrom, RecordOn, Reconciled, Coherent;
    var now := Meanwhile(s, w.load);
    var verdict := RecordOn(LoadFrom(Viewed(w.seen, now), request), response);
    if verdict.Some? then (now, verdict)
    else Reconciled(now, AttemptKey(response.attempt.id, ResponseKind), ResponseRecord(response), w.record)
  }

  class SharedStore {
    var store: Store

    /** `put`: one conditional request. Success means that this request created the object. */
    method Put(key: Key, record: Record, fate: Fate, o: Around) returns (error: Option<LedgerError>)
      requires Coherent(store) && Justified(store, key, record)
      modifies this
      ensures (store, error) == PutIn(old(store), key, record, fate, o)
      ensures Coherent(store) && Extends(old(store), store)
      ensures error.None? ==> key !in old(store) && Has(store, key, record) && fate == Fate(true, true)
      ensures error == Some(Conflict) ==> key in store && fate.answered
      ensures error.Some? ==> error == Some(Conflict) || error == Some(Unavailable)
      ensures key in old(store) && fate.answered ==> error == Some(Conflict)
      ensures fate.applied ==> key in store && (fate.answered ==> error != Some(Unavailable))
    {
      hide Justified, Coherent;
      ghost var before := store;
      store := Meanwhile(store, o.before);
      JustifiedExtends(before, store, key, record);
      if key in store {
        error := if fate.answered then Some(Conflict) else Some(Unavailable);
      } else {
        if fate.applied {
          AddJustified(store, key, record);
          store := store[key := record];
        }
        error := if fate.applied && fate.answered then None else Some(Unavailable);
      }
      store := Meanwhile(store, o.after);
    }

    /** `get`: the object of this moment, or a failure; only absence reads as absent. */
    method Get(key: Key, failure: Option<LedgerError>, o: Around) returns (r: Reading)
      requires Coherent(store) && failure != Some(NotFound)
      modifies this
      ensures (store, r) == GetIn(old(store), key, failure, o)
      ensures Coherent(store) && Extends(old(store), store)
      ensures r.Found? ==> Has(store, key, r.record)
      ensures r == Failed(NotFound) ==> key !in old(store)
      ensures failure.None? && key in old(store) ==> r == Found(old(store)[key])
    {
      hide Justified, Coherent;
      store := Meanwhile(store, o.before);
      if failure.Some? {
        r := Failed(failure.value);
      } else if key in store {
        r := Found(store[key]);
      } else {
        r := Failed(NotFound);
      }
      store := Meanwhile(store, o.after);
    }

    /** `putImmutable`: a write whose reply is lost counts as done when exactly this record is found. */
    method PutImmutable(key: Key, record: Record, w: Writing) returns (error: Option<LedgerError>)
      requires Coherent(store) && Justified(store, key, record) && w.failure != Some(NotFound)
      modifies this
      ensures (store, error) == Reconciled(old(store), key, record, w)
      ensures Coherent(store) && Extends(old(store), store)
      ensures error.None? ==> Has(store, key, record)
      ensures key in old(store) && old(store)[key] != record ==> error.Some?
      ensures w.fate.applied && w.failure.None? ==>
                (error.None? <==> Has(store, key, record)) && (error.Some? ==> error == Some(Conflict))
    {
      hide Justified, Coherent, PutIn, GetIn;
      ghost var first := store;
      error := Put(key, record, w.fate, w.put);
      if error.None? {
        return;
      }
      ghost var second := store;
      var existing := Get(key, w.failure, w.get);
      ExtendsTransitive(first, second, store);
      match existing
      case Failed(e) => error := if e == NotFound then error else Some(e);
      case Found(r) => error := if r != record then Some(Conflict) else None;
    }

    /** `Load` by this client: its reads may fall into different moments, and any of them may fail. */
    method LoadShared(request: string, seen: View, others: Store) returns (r: Loaded, v: View)
      requires Coherent(store)
      modifies this
      ensures Coherent(store) && Extends(old(store), store) && store == Meanwhile(old(store), others)
      ensures Sound(v, store) && v == Viewed(seen, store) && r == LoadFrom(v, request)
    {
      hide LoadFrom, Justified, Coherent;
      store := Meanwhile(store, others);
      v := if Sound(seen, store) then seen else UNREAD;
      r := Load(v, request);
    }

    /** `Prepare`: after success the plan and this very preparation are stored. */
    method Prepare(r: BatchReceipt, p: PreparedAttempt, policy: string, w: Preparing)
      returns (error: Option<LedgerError>, ghost view: View)
      requires Coherent(store) && w.plan.failure != Some(NotFound) && w.record.failure != Some(NotFound)
      modifies this
      ensures (store, error) == PreparesIn(old(store), r, p, policy, w)
      ensures Coherent(store) && Extends(old(store), store)
      ensures r.attempts == [] || !MayPrepare(r, p, policy) ==> error == Some(Corrupt) && store == old(store)
      ensures error.None? ==> Has(store, PlanKey(r.request), PlanRecord(r.plan))
                              && Has(store, AttemptKey(p.attempt.id, PreparedKind), PreparedRecord(p))
      ensures r.attempts != [] && MayPrepare(r, p, policy) && w.plan.fate.applied && w.plan.failure.None?
              && Has(store, PlanKey(r.request), PlanRecord(r.plan)) ==>
                Sound(view, store) && Concludes(store, PrepareVerdict(LoadFrom(view, r.request), r, p),
                                                AttemptKey(p.attempt.id, PreparedKind),
                                                PreparedRecord(p), w.record.fate.applied
                                                && w.record.failure.None?, error)
    {
      hide LoadFrom, MayPrepare, Justified, PrepareVerdict, ValidPlan, Coherent, Reconciled, Meanwhile;
      view := UNREAD;
      if r.attempts == [] || !MayPrepare(r, p, policy) {
        return Some(Corrupt), view;
      }
      ghost var s0 := store;
      PlanJustified(store, r, p, policy);
      error := PutImmutable(PlanKey(r.request), PlanRecord(r.plan), w.plan);
      ghost var s1 := store;
      if error.Some? {
        return;
      }
      var loaded, v := LoadShared(r.request, w.seen, w.load);
      view := v;
      ExtendsTransitive(s0, s1, store);
      ghost var s2 := store;
      error := PrepareVerdict(loaded, r, p);
      if error.Some? {
        return;
      }
      StillPlanned(s1, s2, r);
      SamePolicy(r, p, policy);
      Safety.PrepareJustified(v, store, r, p);
      error := PutImmutable(AttemptKey(p.attempt.id, PreparedKind), PreparedRecord(p), w.record);
      ExtendsTransitive(s0, s2, store);
      StaysSound(v, s2, store);
    }

    /** `Claim`: permission is only this request's own acknowledged creation of the claim. A stored claim without an
        acknowledgement, found or not, gives none. */
    method Claim(claim: DispatchClaim, request: string, policy: string, w: Claiming)
      returns (won: bool, error: Option<LedgerError>, ghost view: View)
      requires Coherent(store)
      modifies this
      ensures (store, won, error) == ClaimsIn(old(store), claim, request, policy, w)
      ensures Coherent(store) && Extends(old(store), store)
      ensures won ==> error.None? && w.fate == Fate(true, true)
                      && AttemptKey(claim.attempt, DispatchKind) !in old(store)
                      && Has(store, AttemptKey(claim.attempt, DispatchKind), ClaimRecord(claim))
                      && PreparedAt(store, claim.attempt).Some?
                         && claim == ExpectedClaim(PreparedAt(store, claim.attempt).value)
      ensures Sound(view, store)
      ensures match ClaimOn(LoadFrom(view, request), claim, policy)
              case NoClaim(e) => !won && error == Some(e)
              case AlreadyClaimed => !won && error.None?
              case MayClaim =>
                && (w.fate == Fate(true, true) ==> error.None? && AttemptKey(claim.attempt, DispatchKind) in store)
                && (w.fate.answered && AttemptKey(claim.attempt, DispatchKind) in old(store) ==> !won && error.None?)
    {
      hide LoadFrom, ClaimOn, Justified, Coherent, PutIn, Meanwhile;
      ghost var s0 := store;
      var loaded, v := LoadShared(request, w.seen, w.load);
      view := v;
      ghost var s1 := store;
      match ClaimOn(loaded, claim, policy)
      case NoClaim(e) => return false, Some(e), v;
      case AlreadyClaimed => return false, None, v;
      case MayClaim =>
        MayClaimJustified(v, store, request, claim, policy);
        error := Put(AttemptKey(claim.attempt, DispatchKind), ClaimRecord(claim), w.fate, w.put);
        ExtendsTransitive(s0, s1, store);
        if error.None? {
          ClaimedPrepared(store, claim);
        }
        StaysSound(v, s1, store);
        won := error.None?;
        if error == Some(Conflict) {
          return false, None, v;
        }
    }

    /** `RecordResponse`: after success this very response is stored, behind its preparation and claim. */
    method RecordResponse(response: AttemptResponse, request: string, w: Recording)
      returns (error: Option<LedgerError>, ghost view: View)
      requires Coherent(store) && w.record.failure != Some(NotFound)
      modifies this
      ensures (store, error) == RecordsIn(old(store), response, request, w)
      ensures Coherent(store) && Extends(old(store), store)
      ensures error.None? ==> Has(store, AttemptKey(response.attempt.id, ResponseKind), ResponseRecord(response))
                              && ResponseJustified(store, response.attempt.id, response)
      ensures Sound(view, store) && Concludes(store, RecordOn(LoadFrom(view, request), response),
                                              AttemptKey(response.attempt.id, ResponseKind),
                                              ResponseRecord(response), w.record.fate.applied
                                              && w.record.failure.None?, error)
    {
      hide LoadFrom, RecordOn, Justified, Coherent, ResponseJustified, Reconciled, Meanwhile;
      ghost var s0 := store;
      var loaded, v := LoadShared(request, w.seen, w.load);
      view := v;
      ghost var s1 := store;
      error := RecordOn(loaded, response);
      if error.Some? {
        return;
      }
      Safety.RecordJustified(v, store, request, response);
      error := PutImmutable(AttemptKey(response.attempt.id, ResponseKind), ResponseRecord(response), w.record);
      ExtendsTransitive(s0, s1, store);
      StaysSound(v, s1, store);
      if error.None? {
        StoredResponse(store, response);
      }
    }
  }

  lemma StaysSound(v: View, s: Store, t: Store)
    requires Sound(v, s) && Extends(s, t)
    ensures Sound(v, t)
  {
  }

  lemma ExtendsTransitive(a: Store, b: Store, c: Store)
    requires Extends(a, b) && Extends(b, c)
    ensures Extends(a, c)
  {
  }

  lemma PlanJustified(s: Store, r: BatchReceipt, p: PreparedAttempt, policy: string)
    requires r.attempts != [] && MayPrepare(r, p, policy)
    ensures Justified(s, PlanKey(r.request), PlanRecord(r.plan))
  {
    hide ValidPrepared, ValidPlan, TerminalChain, Fits;
  }

  lemma SamePolicy(r: BatchReceipt, p: PreparedAttempt, policy: string)
    requires MayPrepare(r, p, policy)
    ensures MayPrepare(r, p, r.plan.policy)
  {
  }

  lemma StillPlanned(s: Store, t: Store, r: BatchReceipt)
    requires Extends(s, t) && Has(s, PlanKey(r.request), PlanRecord(r.plan))
    ensures PlanAt(t, r.request) == Some(r.plan) && Has(t, PlanKey(r.request), PlanRecord(r.plan))
  {
  }

  /** The claim that a load allows is the one its stored preparation calls for. */
  lemma MayClaimJustified(v: View, s: Store, request: string, claim: DispatchClaim, policy: string)
    requires Coherent(s) && Sound(v, s) && ClaimOn(LoadFrom(v, request), claim, policy).MayClaim?
    ensures Justified(s, AttemptKey(claim.attempt, DispatchKind), ClaimRecord(claim))
  {
    hide LoadFrom, PreparedJustified, Traced, HeaderValid, Ended, ValidPlan, ValidReceipt;
    LoadFaithful(v, request);
    var k := AttemptKey(claim.attempt, PreparedKind);
    SoundLook(v, s, k);
    assert Justified(s, k, s[k]);
  }

  lemma ClaimedPrepared(s: Store, claim: DispatchClaim)
    requires Coherent(s) && Has(s, AttemptKey(claim.attempt, DispatchKind), ClaimRecord(claim))
    ensures PreparedAt(s, claim.attempt).Some? && claim == ExpectedClaim(PreparedAt(s, claim.attempt).value)
  {
    hide PreparedJustified;
    var k := AttemptKey(claim.attempt, DispatchKind);
    assert Justified(s, k, s[k]);
  }

  lemma StoredResponse(s: Store, response: AttemptResponse)
    requires Coherent(s) && Has(s, AttemptKey(response.attempt.id, ResponseKind), ResponseRecord(response))
    ensures ResponseJustified(s, response.attempt.id, response)
  {
    hide ResponseJustified;
    var k := AttemptKey(response.attempt.id, ResponseKind);
    assert Justified(s, k, s[k]);
  }
}
