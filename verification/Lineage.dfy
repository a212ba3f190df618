/** What may be in the shared store: every record is justified by the records it depends on.
    The store only grows, so a justification once given holds for ever. */
module Lineage {
  import opened Basics
  import opened LaunchTypes
  import opened Receipt
  import opened Evidence
  import opened Ledger

  type Store = map<Key, Record>

  predicate Extends(s: Store, t: Store) {
    forall k | k in s :: k in t && t[k] == s[k]
  }

  function PlanAt(s: Store, request: string): Option<LaunchPlan> {
    if PlanKey(request) in s && s[PlanKey(request)].PlanRecord? then Some(s[PlanKey(request)].plan) else None
  }

  function PreparedAt(s: Store, id: AttemptID): Option<PreparedAttempt> {
    var k := AttemptKey(id, PreparedKind);
    if k in s && s[k].PreparedRecord? then Some(s[k].prepared) else None
  }

  function ClaimAt(s: Store, id: AttemptID): Option<DispatchClaim> {
    var k := AttemptKey(id, DispatchKind);
    if k in s && s[k].ClaimRecord? then Some(s[k].claim) else None
  }

  function ResponseAt(s: Store, id: AttemptID): Option<AttemptResponse> {
    var k := AttemptKey(id, ResponseKind);
    if k in s && s[k].ResponseRecord? then Some(s[k].response) else None
  }

  /** The bounded history that ends at `parent`, when every attempt in it has a terminal response. */
  function Past(s: Store, parent: Option<AttemptID>): Option<seq<AttemptReceipt>> {
    match parent
    case None => Some([])
    case Some(id) =>
      var h := Past(s, id.parent);
      var r := ResponseAt(s, id);
      if h.Some? && r.Some? && r.value.attempt.id == id
         && r.value.attempt.Terminal()
      then Some(h.value + [r.value.attempt]) else None
  }

  predicate PreparedJustified(s: Store, id: AttemptID, p: PreparedAttempt) {
    && p.attempt.id == id
    && PlanAt(s, id.request).Some? && PlanAt(s, id.request).value.request == id.request
    && Past(s, id.parent).Some? && |Past(s, id.parent).value| < MAX_LAUNCH_ATTEMPTS
    && ValidPrepared(History(PlanAt(s, id.request).value, Past(s, id.parent).value), p)
  }

  predicate ClaimJustified(s: Store, id: AttemptID, c: DispatchClaim) {
    PreparedAt(s, id).Some? && PreparedJustified(s, id, PreparedAt(s, id).value)
    && c == ExpectedClaim(PreparedAt(s, id).value)
  }

  predicate ResponseJustified(s: Store, id: AttemptID, r: AttemptResponse) {
    && ClaimAt(s, id).Some? && ClaimJustified(s, id, ClaimAt(s, id).value)
    && r.attempt.id == id
    && ValidResponse(History(PlanAt(s, id.request).value, Past(s, id.parent).value), PreparedAt(s, id).value, r)
  }

  predicate Justified(s: Store, k: Key, r: Record) {
    match k
    case PlanKey(request) => r.PlanRecord? && r.plan.request == request && ValidPlan(r.plan)
    case AttemptKey(id, PreparedKind) => r.PreparedRecord? && PreparedJustified(s, id, r.prepared)
    case AttemptKey(id, DispatchKind) => r.ClaimRecord? && ClaimJustified(s, id, r.claim)
    case AttemptKey(id, ResponseKind) => r.ResponseRecord? && ResponseJustified(s, id, r.response)
  }

  predicate Coherent(s: Store) {
    forall k | k in s :: Justified(s, k, s[k])
  }

  lemma {:induction false} PastExtends(s: Store, t: Store, parent: Option<AttemptID>)
    requires Extends(s, t) && Past(s, parent).Some?
    ensures Past(t, parent) == Past(s, parent)
  {
    if parent.Some? {
      PastExtends(s, t, parent.value.parent);
    }
  }

  /** Growth of the store never takes a justification away. */
  lemma JustifiedExtends(s: Store, t: Store, k: Key, r: Record)
    requires Extends(s, t) && Justified(s, k, r)
    ensures Justified(t, k, r)
  {
    hide ValidPrepared, ValidResponse, ValidPlan, Past;
    if k.AttemptKey? {
      PastExtends(s, t, k.id.parent);
    }
  }

  /** One more justified object leaves a coherent store coherent. */
  lemma AddJustified(s: Store, key: Key, record: Record)
    requires Coherent(s) && key !in s && Justified(s, key, record)
    ensures Coherent(s[key := record]) && Extends(s, s[key := record])
  {
    hide Justified;
    var t := s[key := record];
    forall k | k in t
      ensures Justified(t, k, t[k])
    {
      JustifiedExtends(s, t, k, t[k]);
    }
  }

  /** Every found reading is the stored record. */
  predicate Sound(v: View, s: Store) {
    v.rest.Failed? && forall k | k in v.known && v.known[k].Found? :: k in s && s[k] == v.known[k].record
  }

  lemma SoundLook(v: View, s: Store, k: Key)
    requires Sound(v, s)
    ensures Look(v, k).Found? ==> k in s && s[k] == Look(v, k).record
  {
  }

  /** A bounded history loaded from any mixture of moments is the bounded history of the store. */
  lemma {:induction false} TracedIsPast(v: View, s: Store, plan: LaunchPlan, attempts: seq<AttemptReceipt>)
    requires Sound(v, s) && Traced(v, plan, attempts) && TerminalChain(plan, attempts)
    ensures Past(s, LastID(attempts)) == Some(attempts)
  {
    hide Fits, ValidPrepared, ValidResponse;
    if attempts != [] {
      var init, last := attempts[..|attempts| - 1], attempts[|attempts| - 1];
      TracedIsPast(v, s, plan, init);
      var p := ReadPrepared(v, last.id).value;
      TerminalRecorded(v, plan, init, last);
      SoundLook(v, s, AttemptKey(last.id, ResponseKind));
      FitsParent(plan, init, last);
      assert init + [last] == attempts;
    }
  }

  lemma FitsParent(plan: LaunchPlan, init: seq<AttemptReceipt>, a: AttemptReceipt)
    requires Fits(plan, init, a)
    ensures a.id == NextID(plan.request, LastID(init)) && a.parent == LastID(init) && a.id.parent == LastID(init)
    ensures a.count == plan.requestedCount - |Ids(init)|
  {
  }

  lemma TerminalRecorded(v: View, plan: LaunchPlan, init: seq<AttemptReceipt>, last: AttemptReceipt)
    requires RecordsFit(v, plan, init, last) && last.Terminal()
    ensures ReadResponse(v, last.id).Ok? && ReadResponse(v, last.id).value.attempt == last
  {
    hide ReadPrepared, ReadClaim, ReadResponse, ValidResponse, BuildFleetInput, ValidReceipt;
  }

  /** On one snapshot of the store, the recorded chain of a bounded past is that past. */
  lemma {:induction false} PastIsTraced(s: Store, plan: LaunchPlan, attempts: seq<AttemptReceipt>)
    requires Traced(Atomic(s), plan, attempts) && Past(s, LastID(attempts)).Some?
    ensures Past(s, LastID(attempts)) == Some(attempts)
  {
    hide ValidPrepared, ValidResponse;
    if attempts != [] {
      var init, last := attempts[..|attempts| - 1], attempts[|attempts| - 1];
      PastIsTraced(s, plan, init);
      assert ReadResponse(Atomic(s), last.id).Ok?;
      assert init + [last] == attempts;
    }
  }

  /** The attempt slots of a request form one path: the slot of each depth is fixed by the request alone. */
  ghost function Slot(request: string, n: nat): AttemptID {
    NextID(request, if n == 0 then None else Some(Slot(request, n - 1)))
  }

  lemma {:induction false} ChainSlots(plan: LaunchPlan, attempts: seq<AttemptReceipt>)
    requires TerminalChain(plan, attempts)
    ensures forall n | 0 <= n < |attempts| :: attempts[n].id == Slot(plan.request, n)
    ensures NextID(plan.request, LastID(attempts)) == Slot(plan.request, |attempts|)
  {
    hide Fits;
    if attempts != [] {
      var init := attempts[..|attempts| - 1];
      ChainSlots(plan, init);
      FitsParent(plan, init, attempts[|attempts| - 1]);
      forall n | 0 <= n < |attempts|
        ensures attempts[n].id == Slot(plan.request, n)
      {
        if n < |init| {
          assert attempts[n] == init[n];
        }
      }
    }
  }

  /** The responses behind a bounded history are in the store, each with the attempt the history shows. */
  lemma {:induction false} PastResponses(s: Store, parent: Option<AttemptID>, n: nat)
    requires Past(s, parent).Some? && n < |Past(s, parent).value|
    ensures var a := Past(s, parent).value[n];
            ResponseAt(s, a.id).Some? && ResponseAt(s, a.id).value.attempt == a && a.Terminal()
  {
    var h := Past(s, parent).value;
    var init := Past(s, parent.value.parent).value;
    assert h == init + [h[|h| - 1]];
    if n < |init| {
      PastResponses(s, parent.value.parent, n);
    }
  }
}
