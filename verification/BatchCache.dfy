/** The local copy of a receipt: when a later copy may replace an earlier one, and why loads always may. */
module BatchCache {
  import opened Basics
  import opened LaunchTypes
  import opened Receipt
  import opened Evidence
  import opened Ledger

  ghost predicate AttemptAdvances(a: AttemptReceipt, b: AttemptReceipt) {
    && a.id == b.id
    && (a.state != Prepared ==> a.createdAt == b.createdAt && b.state != Prepared)
    && (a.fleet != "" ==> a.fleet == b.fleet)
    && (a.Terminal() ==> a == b)
    && (a.state == Unknown ==> b.state != Dispatched)
    && Elems(a.instances) <= Elems(b.instances)
  }

  ghost predicate CanAdvance(prior: BatchReceipt, next: BatchReceipt) {
    && prior.request == next.request && prior.digest == next.digest && |prior.attempts| <= |next.attempts|
    && forall n | 0 <= n < |prior.attempts| :: AttemptAdvances(prior.attempts[n], next.attempts[n])
  }

  /** The comparison as the cache makes it: attempt by attempt, identity by identity. */
  method BatchCacheCanAdvance(prior: BatchReceipt, next: BatchReceipt) returns (ok: bool)
    ensures ok == CanAdvance(prior, next)
  {
    if prior.request != next.request || prior.digest != next.digest || |next.attempts| < |prior.attempts| {
      return false;
    }
    for n := 0 to |prior.attempts|
      invariant forall k | 0 <= k < n :: AttemptAdvances(prior.attempts[k], next.attempts[k])
    {
      var a, b := prior.attempts[n], next.attempts[n];
      if a.id != b.id || (a.state != Prepared && a.createdAt != b.createdAt) || (a.fleet != "" && a.fleet != b.fleet)
         || (a.state != Prepared && b.state == Prepared) {
        return false;
      }
      if (a.state == Complete || a.state == Rejected) && a != b {
        return false;
      }
      if a.state == Unknown && b.state == Dispatched {
        return false;
      }
      for k := 0 to |a.instances|
        invariant Elems(a.instances[..k]) <= Elems(b.instances)
      {
        assert a.instances[..k + 1] == a.instances[..k] + [a.instances[k]];
        if a.instances[k] !in b.instances {
          assert a.instances[k] in Elems(a.instances);
          return false;
        }
      }
      assert a.instances[..|a.instances|] == a.instances;
    }
    return true;
  }

  lemma AdvanceReflexive(r: BatchReceipt)
    ensures CanAdvance(r, r)
  {
  }

  /** Advancing composes when the copy in the middle is in a recognized state. */
  lemma AdvanceTransitive(a: BatchReceipt, b: BatchReceipt, c: BatchReceipt)
    requires CanAdvance(a, b) && CanAdvance(b, c)
    requires forall x | x in b.attempts :: Recognized(x.state)
    ensures CanAdvance(a, c)
  {
    forall n | 0 <= n < |a.attempts|
      ensures AttemptAdvances(a.attempts[n], c.attempts[n])
    {
      assert AttemptAdvances(b.attempts[n], c.attempts[n]);
      assert Recognized(b.attempts[n].state);
    }
  }

  /** Without that condition it does not: an unrecognized state lets known evidence fall back to dispatched. */
  lemma UnrecognizedFallsBack(a: AttemptReceipt, text: string)
    requires a.state == Unknown
    ensures var b, c := a.(state := Unrecognized(text)), a.(state := Dispatched);
            AttemptAdvances(a, b) && AttemptAdvances(b, c) && !AttemptAdvances(a, c)
  {
  }

  lemma {:induction false} ChainRecognized(plan: LaunchPlan, attempts: seq<AttemptReceipt>)
    requires TerminalChain(plan, attempts)
    ensures forall a | a in attempts :: Recognized(a.state)
  {
    hide Fits;
    if attempts != [] {
      var init, last := attempts[..|attempts| - 1], attempts[|attempts| - 1];
      ChainRecognized(plan, init);
      assert attempts == init + [last];
    }
  }

  lemma FitsRecognized(plan: LaunchPlan, prior: seq<AttemptReceipt>, a: AttemptReceipt)
    requires Fits(plan, prior, a)
    ensures Recognized(a.state)
  {
    hide ValidInstanceID, ValidFleetID;
  }

  lemma ValidRecognized(r: BatchReceipt)
    requires ValidReceipt(r)
    ensures forall a | a in r.attempts :: Recognized(a.state)
  {
    hide HeaderValid, TerminalChain;
    var init, last := r.attempts[..|r.attempts| - 1], r.attempts[|r.attempts| - 1];
    ChainRecognized(r.plan, init);
    FitsRecognized(r.plan, init, last);
    hide Fits;
    assert r.attempts == init + [last];
  }

  // ---------------------------------------------------------------- successive loads

  /** Later reads still find every object that earlier reads found. */
  ghost predicate Later(v: View, w: View) {
    forall k :: Look(v, k).Found? ==> Look(w, k) == Look(v, k)
  }

  lemma RecordedAdvances(v: View, w: View, plan: LaunchPlan, init: seq<AttemptReceipt>, init': seq<AttemptReceipt>,
                         a: AttemptReceipt, b: AttemptReceipt)
    requires Later(v, w) && a.id == b.id && RecordsFit(v, plan, init, a) && RecordsFit(w, plan, init', b)
    ensures AttemptAdvances(a, b)
  {
    hide BuildFleetInput, ValidReceipt, ValidDiagnostic, ValidWorker;
    assert Look(v, AttemptKey(a.id, PreparedKind)).Found?;
  }

  lemma {:induction false} TracedPrefix(v: View, plan: LaunchPlan, attempts: seq<AttemptReceipt>, n: nat)
    requires Traced(v, plan, attempts) && n <= |attempts|
    ensures Traced(v, plan, attempts[..n])
    ensures n < |attempts| ==>
              attempts[n].id == NextID(plan.request, LastID(attempts[..n]))
              && RecordsFit(v, plan, attempts[..n], attempts[n])
  {
    hide RecordsFit;
    if n == |attempts| {
      assert attempts[..n] == attempts;
    } else {
      var init := attempts[..|attempts| - 1];
      assert init[..n] == attempts[..n];
      if n < |init| {
        TracedPrefix(v, plan, init, n);
      }
    }
  }

  lemma {:induction false} ChainsAdvance(v: View, w: View, plan: LaunchPlan, s: Snapshot, t: Snapshot, n: nat)
    requires Later(v, w) && Faithful(v, s) && Faithful(w, t) && Ended(w, t)
    requires s.receipt.plan == t.receipt.plan == plan && n <= |s.receipt.attempts|
    ensures n <= |t.receipt.attempts|
    ensures forall k | 0 <= k < n :: AttemptAdvances(s.receipt.attempts[k], t.receipt.attempts[k])
    ensures LastID(s.receipt.attempts[..n]) == LastID(t.receipt.attempts[..n])
  {
    hide Later, RecordsFit, AttemptAdvances, Mirrors, HeaderValid, Traced, ReadPrepared, Orphans;
    if n > 0 {
      ChainsAdvance(v, w, plan, s, t, n - 1);
      var x, y := s.receipt.attempts, t.receipt.attempts;
      TracedPrefix(v, plan, x, n - 1);
      if |y| == n - 1 {
        assert y[..n - 1] == y;
        FoundStays(v, w, plan, x[..n - 1], x[n - 1]);
        assert false;
      } else {
        TracedPrefix(w, plan, y, n - 1);
        RecordedAdvances(v, w, plan, x[..n - 1], y[..n - 1], x[n - 1], y[n - 1]);
      }
    }
  }

  lemma FoundStays(v: View, w: View, plan: LaunchPlan, init: seq<AttemptReceipt>, a: AttemptReceipt)
    requires Later(v, w) && RecordsFit(v, plan, init, a)
    ensures ReadPrepared(w, a.id).Ok?
  {
    assert Look(v, AttemptKey(a.id, PreparedKind)).Found?;
    hide ValidPrepared, ValidResponse;
  }

  /** The receipts of two successful loads always advance, however their reads were interleaved with writers, as
      long as no object disappears or changes between them. */
  lemma LoadsAdvance(v: View, w: View, request: string)
    requires Later(v, w)
    requires LoadFrom(v, request).Loaded? && LoadFrom(v, request).error.None?
    requires LoadFrom(w, request).Loaded? && LoadFrom(w, request).error.None?
    ensures CanAdvance(LoadFrom(v, request).snapshot.receipt, LoadFrom(w, request).snapshot.receipt)
  {
    hide LoadFrom, Faithful, Ended, ValidReceipt, ValidPlan, AttemptAdvances;
    LoadFaithful(v, request);
    LoadFaithful(w, request);
    var s, t := LoadFrom(v, request).snapshot, LoadFrom(w, request).snapshot;
    assert Look(v, PlanKey(request)).Found?;
    SnapshotHeader(v, s);
    SnapshotHeader(w, t);
    ChainsAdvance(v, w, s.receipt.plan, s, t, |s.receipt.attempts|);
  }

  lemma SnapshotHeader(v: View, s: Snapshot)
    requires Faithful(v, s)
    ensures s.receipt == History(s.receipt.plan, s.receipt.attempts)
  {
  }

  // ---------------------------------------------------------------- the cache directory

  /** What a receipt file can hold: a strictly decoded and valid batch, a legacy receipt, or neither. */
  datatype File = Batch(receipt: BatchReceipt) | Legacy(text: string) | Unreadable(text: string)

  datatype CacheError = ReceiptUnavailable | ReceiptConflict | ReceiptInvalid

  /** A history of cache contents in which each copy was allowed to replace the one before it. */
  ghost predicate Saves(history: seq<BatchReceipt>) {
    && (forall n | 0 <= n < |history| :: ValidReceipt(history[n]))
    && forall n | 0 < n < |history| :: CanAdvance(history[n - 1], history[n])
  }

  lemma SavedAppend(past: seq<BatchReceipt>, r: BatchReceipt)
    requires past != [] && (Saves(past) || |past| == 1) && ValidReceipt(past[|past| - 1]) && ValidReceipt(r)
             && CanAdvance(past[|past| - 1], r)
    ensures Saves(past + [r])
  {
    hide ValidReceipt, CanAdvance;
  }

  lemma FirstSave(r: BatchReceipt)
    requires ValidReceipt(r)
    ensures Saves([r]) && [] + [r] == [r]
  {
    hide ValidReceipt, CanAdvance;
  }

  /** Along any chain of saves every earlier copy may still advance to every later one. */
  lemma {:induction false} SavesAdvance(history: seq<BatchReceipt>, i: nat, j: nat)
    requires Saves(history) && i <= j < |history|
    ensures CanAdvance(history[i], history[j])
    decreases j - i
  {
    hide ValidReceipt, CanAdvance;
    if i == j {
      AdvanceReflexive(history[i]);
    } else {
      SavesAdvance(history, i, j - 1);
      ValidRecognized(history[j - 1]);
      AdvanceTransitive(history[i], history[j - 1], history[j]);
    }
  }

  lemma {:induction false} AdvanceIds(prior: seq<AttemptReceipt>, next: seq<AttemptReceipt>)
    requires |prior| <= |next| && forall n | 0 <= n < |prior| :: AttemptAdvances(prior[n], next[n])
    ensures Ids(prior) <= Ids(next) && Fleets(prior) <= Fleets(next)
  {
    if next != [] {
      var init := next[..|next| - 1];
      if |prior| == |next| {
        AdvanceIds(prior[..|prior| - 1], init);
        assert AttemptAdvances(prior[|prior| - 1], next[|next| - 1]);
      } else {
        AdvanceIds(prior, init);
      }
    }
  }

  /** No chain of saves loses an instance, changes or loses a recorded Fleet, alters a bounded attempt or
      shortens the history. */
  lemma NothingForgotten(history: seq<BatchReceipt>, i: nat, j: nat)
    requires Saves(history) && i <= j < |history|
    ensures history[i].digest == history[j].digest && |history[i].attempts| <= |history[j].attempts|
    ensures Ids(history[i].attempts) <= Ids(history[j].attempts)
    ensures Fleets(history[i].attempts) <= Fleets(history[j].attempts)
    ensures forall n | 0 <= n < |history[i].attempts| ::
              var a, b := history[i].attempts[n], history[j].attempts[n];
              a.id == b.id && (a.fleet != "" ==> b.fleet == a.fleet) && (a.Terminal() ==> b == a)
  {
    hide ValidReceipt;
    SavesAdvance(history, i, j);
    AdvanceIds(history[i].attempts, history[j].attempts);
    forall n | 0 <= n < |history[i].attempts|
      ensures var a, b := history[i].attempts[n], history[j].attempts[n];
              a.id == b.id && (a.fleet != "" ==> b.fleet == a.fleet) && (a.Terminal() ==> b == a)
    {
      assert AttemptAdvances(history[i].attempts[n], history[j].attempts[n]);
    }
  }

  /** Whether the save rules let `r` take its place among `files`. */
  ghost predicate Admits(files: map<string, File>, r: BatchReceipt) {
    && ValidReceipt(r)
    && (r.request in files ==>
          files[r.request].Batch? && ValidReceipt(files[r.request].receipt)
          && CanAdvance(files[r.request].receipt, r))
  }

  method Admission(files: map<string, File>, r: BatchReceipt) returns (error: Option<CacheError>)
    ensures error.None? <==> Admits(files, r)
    ensures error.Some? ==> error == Some(if ValidReceipt(r) then ReceiptConflict else ReceiptUnavailable)
  {
    hide ValidReceipt, CanAdvance;
    var ok := Validate(r);
    if !ok {
      return Some(ReceiptUnavailable);
    }
    if r.request in files {
      if !files[r.request].Batch? {
        return Some(ReceiptConflict);
      }
      var valid := Validate(files[r.request].receipt);
      if !valid {
        return Some(ReceiptConflict);
      }
      var advances := BatchCacheCanAdvance(files[r.request].receipt, r);
      if !advances {
        return Some(ReceiptConflict);
      }
    }
    return None;
  }

  /** The receipt directory of one state tree, under the request lock. `backups` holds the files that recovery
      moved aside; `saved` remembers, for each request, every copy since the last such move. */
  class Cache {
    var files: map<string, File>
    var backups: seq<File>
    ghost var saved: map<string, seq<BatchReceipt>>

    ghost predicate Valid()
      reads this
    {
      forall id | id in saved ::
        Saves(saved[id]) && saved[id] != [] && id in files && files[id] == Batch(saved[id][|saved[id]| - 1])
    }

    constructor ()
      ensures Valid() && files == map[] && backups == []
    {
      files, backups, saved := map[], [], map[];
    }

    /** The copies of a request so far: those this object saved, or the one batch file found on disk. */
    ghost function Past(id: string): seq<BatchReceipt>
      reads this
    {
      if id in saved then saved[id]
      else if id in files && files[id].Batch? && ValidReceipt(files[id].receipt) then [files[id].receipt]
      else []
    }

    /** `SaveBatch`; `durable` is whether the temporary file, rename and directory sync all succeed. A rename that
        happened before a failed sync may leave the new copy in place. */
    method SaveBatch(r: BatchReceipt, durable: bool, renamed: bool) returns (error: Option<CacheError>)
      requires Valid()
      modifies this
      ensures Valid() && backups == old(backups)
      ensures var stored := Admits(old(files), r) && (durable || renamed);
              && files == (if stored then old(files)[r.request := Batch(r)] else old(files))
              && saved == (if stored then old(saved)[r.request := old(Past(r.request)) + [r]] else old(saved))
      ensures error == (if !ValidReceipt(r) then Some(ReceiptUnavailable)
                        else if !Admits(old(files), r) then Some(ReceiptConflict)
                        else if durable then None else Some(ReceiptUnavailable))
    {
      hide ValidReceipt, CanAdvance, Saves;
      error := Admission(files, r);
      if error.None? {
        if durable || renamed {
          ghost var past := Past(r.request);
          if past == [] {
            FirstSave(r);
          } else {
            SavedAppend(past, r);
          }
          files := files[r.request := Batch(r)];
          saved := saved[r.request := past + [r]];
        }
        error := if durable then None else Some(ReceiptUnavailable);
      }
    }

    /** A file is still in place, was superseded by a copy it may advance to, or lies beside it untouched. */
    ghost predicate Survives(file: File, id: string, r: BatchReceipt)
      reads this
    {
      || file in backups
      || (id in files && files[id] == file)
      || (id in files && files[id] == Batch(r) && file.Batch? && CanAdvance(file.receipt, r))
    }

    /** `RestoreBatch`: valid content obeys the save rules, unreadable content is kept beside the new copy. */
    method RestoreBatch(r: BatchReceipt, movable: bool, durable: bool, renamed: bool)
      returns (error: Option<CacheError>)
      requires Valid()
      modifies this
      ensures Valid()
      ensures !ValidReceipt(r) ==> error == Some(ReceiptInvalid) && files == old(files) && backups == old(backups)
      ensures var id := r.request;
              ValidReceipt(r) && id in old(files) && old(files)[id].Legacy? ==>
                error == Some(ReceiptConflict) && files == old(files) && backups == old(backups)
      ensures var id := r.request;
              ValidReceipt(r) && id in old(files) && old(files)[id].Unreadable? ==>
                && backups == (if movable then old(backups) + [old(files)[id]] else old(backups))
                && (!movable ==> files == old(files) && error == Some(ReceiptUnavailable))
                && (movable && durable ==> error.None? && files == old(files)[id := Batch(r)])
      ensures Admits(old(files), r) && durable ==>
                error.None? && files == old(files)[r.request := Batch(r)] && backups == old(backups)
      ensures forall id | id in old(files) :: Survives(old(files)[id], id, r)
      ensures var aside := r.request in old(files) && old(files)[r.request].Unreadable?;
              var base := if aside then old(files) - {r.request} else old(files);
              ValidReceipt(r) && (r.request in old(files) ==> !old(files)[r.request].Legacy?) && (aside ==> movable) ==>
                && backups == (if aside then old(backups) + [old(files)[r.request]] else old(backups))
                && files == (if Admits(base, r) && (durable || renamed) then base[r.request := Batch(r)] else base)
                && error == if !Admits(base, r) then Some(ReceiptConflict)
                            else if durable then None else Some(ReceiptUnavailable)
    {
      hide ValidReceipt, CanAdvance, Saves;
      var ok := Validate(r);
      if !ok {
        return Some(ReceiptInvalid);
      }
      var id := r.request;
      if id in files {
        match files[id]
        case Legacy(_) => return Some(ReceiptConflict);
        case Unreadable(_) =>
          if !movable {
            return Some(ReceiptUnavailable);
          }
          backups := backups + [files[id]];
          files := files - {id};
        case Batch(_) =>
      }
      error := SaveBatch(r, durable, renamed);
    }
  }
}
