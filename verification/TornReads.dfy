/** Loads whose reads fall into different moments. A writer beside such a load can make it report corruption on a store
    where nothing is wrong; this module says which readings do that, and on which stores it can happen. */
module TornReads {
  import opened Basics
  import opened LaunchTypes
  import opened Receipt
  import opened Evidence
  import opened Ledger
  import opened Lineage

  /** No read failed: every reading is what the store holds, or the absence of an object that was written later. */
  ghost predicate Mixture(v: View, s: Store) {
    && v.rest == Failed(NotFound)
    && forall k | k in v.known :: v.known[k] == Failed(NotFound) || (k in s && v.known[k] == Found(s[k]))
  }

  ghost predicate Shows(v: View, id: AttemptID, kind: Kind) {
    Look(v, AttemptKey(id, kind)).Found?
  }

  ghost predicate ShowsAny(v: View, id: AttemptID) {
    Shows(v, id, PreparedKind) || Shows(v, id, DispatchKind) || Shows(v, id, ResponseKind)
  }

  /** The torn readings of a chain from attempt `n` on: a claim or response without its preparation, a response without
      its claim, or anything of the successor of an attempt whose response was not there yet. */
  ghost predicate TornFrom(v: View, request: string, parent: Option<AttemptID>, n: nat)
    requires n <= MAX_LAUNCH_ATTEMPTS
    decreases MAX_LAUNCH_ATTEMPTS - n
  {
    var id := NextID(request, parent);
    if !Shows(v, id, PreparedKind) then Shows(v, id, DispatchKind) || Shows(v, id, ResponseKind)
    else if Shows(v, id, ResponseKind) then
      !Shows(v, id, DispatchKind) || (n < MAX_LAUNCH_ATTEMPTS && TornFrom(v, request, Some(id), n + 1))
    else ShowsAny(v, NextID(request, Some(id)))
  }

  lemma MixedLook(v: View, s: Store, k: Key)
    requires Mixture(v, s)
    ensures if Look(v, k).Found? then k in s && Look(v, k) == Found(s[k]) else Look(v, k) == Failed(NotFound)
  {
  }

  /** Where no preparation was seen, the load ends, and only an orphan makes it corrupt. */
  lemma NothingPrepared(v: View, s: Store, snapshot: Snapshot, parent: Option<AttemptID>, n: nat)
    requires Mixture(v, s) && n <= MAX_LAUNCH_ATTEMPTS
    requires !Shows(v, NextID(snapshot.receipt.request, parent), PreparedKind)
    ensures var id := NextID(snapshot.receipt.request, parent);
            LoadChain(v, snapshot, parent, n).error
            == if Shows(v, id, DispatchKind) || Shows(v, id, ResponseKind) then Some(Corrupt) else None
  {
    var id := NextID(snapshot.receipt.request, parent);
    MixedLook(v, s, AttemptKey(id, PreparedKind));
    MixedLook(v, s, AttemptKey(id, DispatchKind));
    MixedLook(v, s, AttemptKey(id, ResponseKind));
  }

  /** What a coherent store holds of an attempt whose preparation was seen. */
  lemma SeenRecords(v: View, s: Store, snapshot: Snapshot, id: AttemptID)
    requires Coherent(s) && Mixture(v, s)
             && snapshot.receipt == History(snapshot.receipt.plan, snapshot.receipt.attempts)
    requires PlanAt(s, snapshot.receipt.request) == Some(snapshot.receipt.plan)
    requires Past(s, LastID(snapshot.receipt.attempts)) == Some(snapshot.receipt.attempts)
    requires id == NextID(snapshot.receipt.request, LastID(snapshot.receipt.attempts)) && Shows(v, id, PreparedKind)
    ensures ReadPrepared(v, id).Ok? && |snapshot.receipt.attempts| < MAX_LAUNCH_ATTEMPTS
    ensures var p := ReadPrepared(v, id).value;
            && p.attempt.id == id && ValidPrepared(snapshot.receipt, p)
            && ReadClaim(v, p, id) == (if Shows(v, id, DispatchKind) then Ok(ExpectedClaim(p)) else Err(NotFound))
            && (!Shows(v, id, ResponseKind) ==> ReadResponse(v, id) == Err(NotFound))
            && (Shows(v, id, ResponseKind) ==>
                  && ReadResponse(v, id).Ok? && ResponseAt(s, id) == Some(ReadResponse(v, id).value)
                  && ReadResponse(v, id).value.attempt.id == id
                     && ValidResponse(snapshot.receipt, p, ReadResponse(v, id).value))
  {
    hide ValidPrepared, ValidResponse, Past, ValidPlan;
    var pk, ck, rk := AttemptKey(id, PreparedKind), AttemptKey(id, DispatchKind), AttemptKey(id, ResponseKind);
    MixedLook(v, s, pk);
    MixedLook(v, s, ck);
    MixedLook(v, s, rk);
    assert Justified(s, pk, s[pk]);
    if Shows(v, id, DispatchKind) {
      assert Justified(s, ck, s[ck]);
    }
    if Shows(v, id, ResponseKind) {
      assert Justified(s, rk, s[rk]);
    }
  }

  /** Whatever is written of an attempt stands on a bounded past. */
  lemma WrittenBehind(s: Store, id: AttemptID, kind: Kind)
    requires Coherent(s)
    ensures AttemptKey(id, kind) in s ==> Past(s, id.parent).Some?
  {
    hide ValidPrepared, ValidResponse, ValidPlan, Past;
    if AttemptKey(id, kind) in s {
      assert Justified(s, AttemptKey(id, kind), s[AttemptKey(id, kind)]);
    }
  }

  /** Behind an attempt that has no terminal response nothing was ever written. */
  lemma NothingBehind(v: View, s: Store, id: AttemptID)
    requires Coherent(s) && Mixture(v, s) && Past(s, Some(id)).None?
    ensures !ShowsAny(v, NextID(id.request, Some(id)))
  {
    hide Coherent, Past;
    var next := NextID(id.request, Some(id));
    WrittenBehind(s, next, PreparedKind);
    WrittenBehind(s, next, DispatchKind);
    WrittenBehind(s, next, ResponseKind);
    MixedLook(v, s, AttemptKey(next, PreparedKind));
    MixedLook(v, s, AttemptKey(next, DispatchKind));
    MixedLook(v, s, AttemptKey(next, ResponseKind));
  }

  /** An attempt whose response was not seen can have no valid successor in the same view. */
  lemma NoSuccessor(v: View, s: Store, snapshot: Snapshot, last: AttemptReceipt, n: nat)
    requires Coherent(s) && Mixture(v, s) && n <= MAX_LAUNCH_ATTEMPTS
    requires snapshot.receipt.attempts != [] && snapshot.receipt.attempts[|snapshot.receipt.attempts| - 1] == last
             && !last.Terminal()
    ensures var next := NextID(snapshot.receipt.request, Some(last.id));
            LoadChain(v, snapshot, Some(last.id), n).error == if ShowsAny(v, next) then Some(Corrupt) else None
  {
    hide ValidPrepared;
    var next := NextID(snapshot.receipt.request, Some(last.id));
    if Shows(v, next, PreparedKind) {
      MixedLook(v, s, AttemptKey(next, PreparedKind));
      assert Justified(s, AttemptKey(next, PreparedKind), s[AttemptKey(next, PreparedKind)]);
      var p := ReadPrepared(v, next).value;
      if ValidPrepared(snapshot.receipt, p) {
        PreparedFits(snapshot.receipt, p);
      }
    } else {
      NothingPrepared(v, s, snapshot, Some(last.id), n);
    }
  }

  /** What one attempt of a mixed chain adds, or why it is corrupt. */
  lemma MixedAttempt(v: View, s: Store, snapshot: Snapshot, id: AttemptID, p: PreparedAttempt)
    requires ReadClaim(v, p, id) == (if Shows(v, id, DispatchKind) then Ok(ExpectedClaim(p)) else Err(NotFound))
    requires !Shows(v, id, ResponseKind) ==> ReadResponse(v, id) == Err(NotFound)
    requires Shows(v, id, ResponseKind) ==>
               ReadResponse(v, id).Ok? && ValidResponse(snapshot.receipt, p, ReadResponse(v, id).value)
    ensures var next := LoadAttempt(v, snapshot, id, p);
            && next.error == (if Shows(v, id, ResponseKind) && !Shows(v, id, DispatchKind) then Some(Corrupt) else None)
            && next.snapshot.receipt.plan == snapshot.receipt.plan
               && next.snapshot.receipt.request == snapshot.receipt.request
            && next.snapshot.receipt.digest == snapshot.receipt.digest
            && (next.error.None? ==>
                  next.snapshot.receipt.attempts
                  == snapshot.receipt.attempts
                     + [if Shows(v, id, ResponseKind) then ReadResponse(v, id).value.attempt
                        else if Shows(v, id, DispatchKind) then p.attempt.(state := Dispatched) else p.attempt])
  {
    hide ReadClaim, ReadResponse, ValidResponse;
  }

  lemma PreparedUnfinished(r: BatchReceipt, p: PreparedAttempt)
    requires ValidPrepared(r, p)
    ensures p.attempt.state == Prepared
  {
  }

  /** The rest of a load over a mixture of moments reports corruption exactly when some pair of its readings is torn. */
  lemma {:induction false} MixedChain(v: View, s: Store, snapshot: Snapshot, n: nat)
    requires Coherent(s) && Mixture(v, s)
             && snapshot.receipt == History(snapshot.receipt.plan, snapshot.receipt.attempts)
    requires PlanAt(s, snapshot.receipt.request) == Some(snapshot.receipt.plan)
    requires Past(s, LastID(snapshot.receipt.attempts)) == Some(snapshot.receipt.attempts)
    requires n == |snapshot.receipt.attempts| <= MAX_LAUNCH_ATTEMPTS
    ensures LoadChain(v, snapshot, LastID(snapshot.receipt.attempts), n).error
            == if TornFrom(v, snapshot.receipt.request, LastID(snapshot.receipt.attempts), n) then Some(Corrupt)
              else None
    decreases MAX_LAUNCH_ATTEMPTS - n
  {
    hide Coherent, Mixture, ValidPrepared, ValidResponse, LoadAttempt, ReadPrepared, ReadClaim, ReadResponse, Past,
         Orphans, Shows;
    var request, attempts := snapshot.receipt.request, snapshot.receipt.attempts;
    var id := NextID(request, LastID(attempts));
    if !Shows(v, id, PreparedKind) {
      NothingPrepared(v, s, snapshot, LastID(attempts), n);
    } else {
      SeenRecords(v, s, snapshot, id);
      var p := ReadPrepared(v, id).value;
      MixedAttempt(v, s, snapshot, id, p);
      PreparedUnfinished(snapshot.receipt, p);
      var next := LoadAttempt(v, snapshot, id, p).snapshot;
      if !Shows(v, id, ResponseKind) {
        NoSuccessor(v, s, next, next.receipt.attempts[n], n + 1);
      } else if Shows(v, id, DispatchKind) {
        var a := ReadResponse(v, id).value.attempt;
        PastGrows(s, id, attempts, a);
        if a.Terminal() {
          MixedChain(v, s, next, n + 1);
        } else {
          NothingBehind(v, s, id);
          NothingPrepared(v, s, next, Some(id), n + 1);
          NothingTorn(v, request, id, n + 1);
        }
      }
    }
  }

  lemma NothingTorn(v: View, request: string, id: AttemptID, n: nat)
    requires n <= MAX_LAUNCH_ATTEMPTS && !ShowsAny(v, NextID(request, Some(id)))
    ensures !TornFrom(v, request, Some(id), n)
    ensures var next := NextID(request, Some(id));
            && !Shows(v, next, PreparedKind) && !Shows(v, next, DispatchKind) && !Shows(v, next, ResponseKind)
  {
  }

  lemma PastGrows(s: Store, id: AttemptID, attempts: seq<AttemptReceipt>, a: AttemptReceipt)
    requires Past(s, id.parent) == Some(attempts) && ResponseAt(s, id).Some? && ResponseAt(s, id).value.attempt == a
             && a.id == id
    ensures Past(s, Some(id)) == if a.Terminal() then Some(attempts + [a]) else None
  {
  }

  /** For every mixture of moments of a coherent store: without the plan nothing is found, and otherwise the load
      reports corruption exactly when a pair of its readings is torn, and no other error. */
  lemma TornExactly(v: View, s: Store, request: string)
    requires Coherent(s) && Mixture(v, s) && ValidRequest(request)
    ensures if Look(v, PlanKey(request)).Found? then
              LoadFrom(v, request).Loaded?
              && LoadFrom(v, request).error == if TornFrom(v, request, None, 0) then Some(Corrupt) else None
            else LoadFrom(v, request) == NoPlan(NotFound)
  {
    hide ValidPlan, LoadChain, TornFrom, Coherent;
    MixedLook(v, s, PlanKey(request));
    if Look(v, PlanKey(request)).Found? {
      PlanKept(s, request);
      MixedChain(v, s, EmptySnapshot(PlanAt(s, request).value), 0);
    }
  }

  lemma PlanKept(s: Store, request: string)
    requires Coherent(s) && PlanKey(request) in s
    ensures s[PlanKey(request)].PlanRecord? && PlanAt(s, request).value.request == request
            && ValidPlan(PlanAt(s, request).value)
  {
    hide ValidPlan;
    assert Justified(s, PlanKey(request), s[PlanKey(request)]);
  }

  /** Exactly on the stores that hold the first attempt's claim can reads of different moments make a load report
      corruption: read before the preparation was written, its absence makes the claim, read after it was, an orphan. */
  lemma TornLoad(s: Store, request: string)
    requires Coherent(s) && ValidRequest(request)
    ensures (exists v :: Mixture(v, s) && LoadFrom(v, request).Loaded? && LoadFrom(v, request).error.Some?)
            <==> ClaimAt(s, Slot(request, 0)).Some?
  {
    hide LoadFrom, Coherent, Past, ValidPrepared, ValidResponse, ValidPlan;
    if ClaimAt(s, Slot(request, 0)).Some? {
      var v := OrphanedClaim(s, request);
    }
    if v :| Mixture(v, s) && LoadFrom(v, request).Loaded? && LoadFrom(v, request).error.Some? {
      TornExactly(v, s, request);
      TornHasClaim(v, s, request);
    }
  }

  lemma OrphanedClaim(s: Store, request: string) returns (v: View)
    requires Coherent(s) && ValidRequest(request) && ClaimAt(s, Slot(request, 0)).Some?
    ensures Mixture(v, s) && LoadFrom(v, request).Loaded? && LoadFrom(v, request).error == Some(Corrupt)
  {
    hide LoadFrom, ValidPrepared, ValidPlan, Past;
    var k := AttemptKey(Slot(request, 0), DispatchKind);
    assert Justified(s, k, s[k]);
    v := View(map[PlanKey(request) := Found(s[PlanKey(request)]), k := Found(s[k])], Failed(NotFound));
    TornExactly(v, s, request);
  }

  lemma TornHasClaim(v: View, s: Store, request: string)
    requires Coherent(s) && Mixture(v, s) && TornFrom(v, request, None, 0)
    ensures ClaimAt(s, Slot(request, 0)).Some?
  {
    hide ValidPrepared, ValidResponse, ValidPlan;
    var id := Slot(request, 0);
    var next := NextID(request, Some(id));
    forall kind: Kind, slot | (slot == id || slot == next) && Shows(v, slot, kind)
      ensures AttemptKey(slot, kind) in s && Justified(s, AttemptKey(slot, kind), s[AttemptKey(slot, kind)])
    {
      MixedLook(v, s, AttemptKey(slot, kind));
    }
    if ResponseAt(s, id).Some? {
      assert Justified(s, AttemptKey(id, ResponseKind), s[AttemptKey(id, ResponseKind)]);
    }
  }
}
