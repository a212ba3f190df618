/** Observation of a launch after the fact: what EC2 shows may add identities and doubt, never remove either. */
module Reconcile {
  import opened Basics
  import opened LaunchTypes
  import opened Receipt
  import opened Fleet
  import opened Evidence
  import opened Ledger
  import FW = FleetWorkers

  // ---------------------------------------------------------------- the snapshot that is observed

  /** What a shared terminal response says of attempt `n`, if there is one. */
  ghost function SharedBound(s: Snapshot, n: nat): Option<AttemptReceipt>
    requires n < |s.receipt.attempts|
  {
    var id := s.receipt.attempts[n].id;
    if id in s.responses && s.responses[id].attempt.Terminal() then Some(s.responses[id].attempt) else None
  }

  /** Attempt `n` of the receipt is what the shared records of its identity allow. */
  ghost predicate SharedAttempt(s: Snapshot, n: nat)
    requires n < |s.receipt.attempts|
  {
    var a := s.receipt.attempts[n];
    var prior := s.receipt.(attempts := s.receipt.attempts[..n]);
    && a.id in s.prepared && ValidPrepared(prior, s.prepared[a.id])
    && (a.id in s.claims ==> s.claims[a.id] == ExpectedClaim(s.prepared[a.id]))
    && (a.id in s.responses ==> a.id in s.claims && ValidResponse(prior, s.prepared[a.id], s.responses[a.id]))
    && (if SharedBound(s, n).Some? then a == SharedBound(s, n).value
        else !a.Terminal() && (a.id !in s.claims ==> a.state == Prepared))
  }

  ghost predicate Consistent(s: Snapshot) {
    && ValidReceipt(s.receipt) && |s.prepared| == |s.receipt.attempts|
    && (forall n | 0 <= n < |s.receipt.attempts| :: SharedAttempt(s, n))
    && s.claims.Keys <= IDSet(s.receipt.attempts) && s.responses.Keys <= IDSet(s.receipt.attempts)
  }

  ghost function IDSet(attempts: seq<AttemptReceipt>): set<AttemptID> {
    set a | a in attempts :: a.id
  }

  /** Whether shared responses bound every attempt of the history. */
  ghost predicate AllBound(s: Snapshot) {
    forall n | 0 <= n < |s.receipt.attempts| :: SharedBound(s, n) == Some(s.receipt.attempts[n])
  }

  /** Every snapshot that a load returns without error passes the reconciler's own validation. */
  lemma LoadedConsistent(v: View, request: string)
    requires LoadFrom(v, request).Loaded? && LoadFrom(v, request).error.None?
    requires LoadFrom(v, request).snapshot.receipt.attempts != []
    ensures Consistent(LoadFrom(v, request).snapshot)
  {
    hide LoadFrom, Traced, ValidReceipt, SharedAttempt, Ended, ValidPlan, Mirrors, HeaderValid;
    LoadFaithful(v, request);
    var s := LoadFrom(v, request).snapshot;
    forall n | 0 <= n < |s.receipt.attempts|
      ensures SharedAttempt(s, n)
    {
      FaithfulAttempt(v, s, n);
    }
    IDsAgree(s.receipt.attempts);
    PreparedCount(v, s);
  }

  lemma {:induction false} IDsAgree(attempts: seq<AttemptReceipt>)
    ensures IDSet(attempts) == AttemptIDs(attempts)
  {
    if attempts != [] {
      IDsAgree(attempts[..|attempts| - 1]);
      assert attempts == attempts[..|attempts| - 1] + [attempts[|attempts| - 1]];
    }
  }

  lemma {:induction false} DistinctIDs(v: View, plan: LaunchPlan, attempts: seq<AttemptReceipt>)
    requires Traced(v, plan, attempts)
    ensures |AttemptIDs(attempts)| == |attempts|
  {
    hide RecordsFit;
    if attempts != [] {
      var init, last := attempts[..|attempts| - 1], attempts[|attempts| - 1];
      DistinctIDs(v, plan, init);
      TracedDepth(v, plan, init);
      assert last.id !in AttemptIDs(init);
    }
  }

  lemma PreparedCount(v: View, s: Snapshot)
    requires Faithful(v, s)
    ensures |s.prepared| == |s.receipt.attempts|
    ensures s.claims.Keys <= AttemptIDs(s.receipt.attempts) && s.responses.Keys <= AttemptIDs(s.receipt.attempts)
  {
    hide Traced, HeaderValid, ReadPrepared, ReadClaim, ReadResponse;
    DistinctIDs(v, s.receipt.plan, s.receipt.attempts);
    assert s.prepared.Keys == AttemptIDs(s.receipt.attempts);
    MapSize(s.prepared);
  }

  lemma MapSize<K, V>(m: map<K, V>)
    ensures |m| == |m.Keys|
  {
  }

  lemma {:induction false} TracedRecords(v: View, plan: LaunchPlan, attempts: seq<AttemptReceipt>, n: nat)
    requires Traced(v, plan, attempts) && n < |attempts|
    ensures RecordsFit(v, plan, attempts[..n], attempts[n]) && attempts[n].id in AttemptIDs(attempts)
  {
    hide RecordsFit;
    var init := attempts[..|attempts| - 1];
    if n < |init| {
      TracedRecords(v, plan, init, n);
      assert init[..n] == attempts[..n];
    }
  }

  lemma FaithfulAttempt(v: View, s: Snapshot, n: nat)
    requires Faithful(v, s) && n < |s.receipt.attempts|
    ensures SharedAttempt(s, n)
  {
    hide Traced, HeaderValid, ValidPrepared, ValidResponse, ReadPrepared, ReadResponse;
    TracedRecords(v, s.receipt.plan, s.receipt.attempts, n);
    var a := s.receipt.attempts[n];
    PreparedState(History(s.receipt.plan, s.receipt.attempts[..n]), s.prepared[a.id]);
    assert s.receipt.(attempts := s.receipt.attempts[..n]) == History(s.receipt.plan, s.receipt.attempts[..n]);
  }

  lemma PreparedState(r: BatchReceipt, p: PreparedAttempt)
    requires ValidPrepared(r, p)
    ensures p.attempt.state == Prepared
  {
  }

  // ---------------------------------------------------------------- what EC2 answers

  /** One row of the scoped inventory; `valid` is the verdict of its comparison with the immutable pins. */
  datatype ScanRow = ScanRow(id: string, tag: Option<AttemptID>, volumes: seq<Volume>, valid: bool)

  /** One Fleet description; `pinned` is the verdict of its comparison with the original request. */
  datatype FleetRow = FleetRow(id: string, pinned: bool, groups: seq<Group>)

  datatype FleetPage = FleetPage(fleets: seq<FleetRow>, gone: bool, failed: bool, next: string)

  /** One row of an exact inspection: what the verifier compares, the attempt it names, whether the instance is
      terminated or shutting down, and whether such a row contradicts nothing of the original launch. */
  datatype ExactRow = ExactRow(row: FW.InstanceRow, tag: Option<AttemptID>, terminal: bool, matches: bool)

  /** An error of an exact read: the identity does not exist, or anything else. */
  datatype ReadError = NoSuchInstance | OtherFailure

  /** One answer to an exact read; an error may come with an output or without. */
  datatype ExactPage = ExactPage(rows: seq<ExactRow>, answered: bool, error: Option<ReadError>, next: string)

  /** The answers to one exact inspection; the caller may give up during it. */
  datatype Inspection = Inspection(instances: seq<ExactPage>, volumes: seq<FW.Page<FW.VolumeRow>>, cancelled: bool)

  /** A row that shows the inspected original worker at its end: it is kept from the verifier. */
  ghost predicate Removed(historical: bool, id: string, r: ExactRow) {
    historical && r.row.id == id && r.terminal
  }

  ghost function KeptRows(historical: bool, id: string, rows: seq<ExactRow>): seq<FW.InstanceRow> {
    if rows == [] then []
    else
      KeptRows(historical, id, rows[..|rows| - 1])
      + (if Removed(historical, id, rows[|rows| - 1]) then [] else [rows[|rows| - 1].row])
  }

  /** The original worker does not exist any more, says a read without output. */
  ghost predicate Vanished(historical: bool, p: ExactPage) {
    historical && !p.answered && p.error == Some(NoSuchInstance)
  }

  /** What the verifier gets to see of a page. */
  ghost function Shown(historical: bool, id: string, p: ExactPage): FW.Page<FW.InstanceRow> {
    if !p.answered then FW.Page([], !Vanished(historical, p), "")
    else FW.Page(KeptRows(historical, id, p.rows), p.error.Some?, p.next)
  }

  ghost function AllShown(historical: bool, id: string, pages: seq<ExactPage>): (s: seq<FW.Page<FW.InstanceRow>>)
    ensures |s| == |pages|
  {
    seq(|pages|, n requires 0 <= n < |pages| => Shown(historical, id, pages[n]))
  }

  /** Every row of the pages that came with an output. */
  ghost function ExactRows(pages: seq<ExactPage>): seq<ExactRow> {
    if pages == [] then []
    else ExactRows(pages[..|pages| - 1]) + (if pages[|pages| - 1].answered then pages[|pages| - 1].rows else [])
  }

  ghost function RowNames(rows: seq<ExactRow>): set<string> {
    set r | r in rows :: r.row.id
  }

  /** What one exact inspection has seen so far. */
  datatype Sight = Sight(gone: bool, live: bool, failed: bool, seen: set<string>)

  /** Evidence that the original worker is gone: no such identity, an empty answer, or its terminal row. */
  ghost predicate GoneIn(historical: bool, id: string, p: ExactPage) {
    Vanished(historical, p) || (p.answered && (p.rows == [] || AnyRemoved(historical, id, p.rows)))
  }

  ghost predicate AnyLive(historical: bool, id: string, rows: seq<ExactRow>) {
    exists r :: r in rows && !Removed(historical, id, r)
  }

  ghost predicate AnyRemoved(historical: bool, id: string, rows: seq<ExactRow>) {
    exists r :: r in rows && Removed(historical, id, r)
  }

  ghost predicate AllMatch(historical: bool, id: string, rows: seq<ExactRow>) {
    forall r | r in rows && Removed(historical, id, r) :: r.matches
  }

  ghost predicate NoRepeats(rows: seq<ExactRow>) {
    forall i, j | 0 <= i < j < |rows| :: rows[i].row.id != rows[j].row.id
  }

  ghost predicate FineRead(historical: bool, p: ExactPage) {
    Vanished(historical, p) || (p.answered && p.error.None?)
  }

  /** `failed` misses nothing: every read succeeded or said that the identity is gone, no identity came twice, and no
      terminal row contradicts the launch. */
  ghost predicate Untroubled(historical: bool, id: string, pages: seq<ExactPage>) {
    (forall p | p in pages :: FineRead(historical, p)) && AllMatch(historical, id, ExactRows(pages))
    && NoRepeats(ExactRows(pages))
  }

  /** What the pages of one exact inspection say of the inspected worker. */
  ghost predicate Sees(historical: bool, id: string, pages: seq<ExactPage>, s: Sight) {
    && s.seen == RowNames(ExactRows(pages))
    && (s.live <==> AnyLive(historical, id, ExactRows(pages)))
    && (s.gone <==> exists p :: p in pages && GoneIn(historical, id, p))
    && (!s.failed <==> Untroubled(historical, id, pages))
  }

  /** An original worker is provably gone: the reads say so, show nothing alive, and nothing went wrong in them. */
  ghost predicate Departed(id: string, pages: seq<ExactPage>) {
    && (exists p :: p in pages && GoneIn(true, id, p)) && Untroubled(true, id, pages)
    && forall r | r in ExactRows(pages) :: Removed(true, id, r)
  }

  datatype ProblemCode =
    | LaunchInventoryUnavailable | LaunchInventoryInvalid | LaunchIdentityMismatch | LaunchResponseConflict
    | FleetIdentityMismatch | FleetObservationUnavailable | FleetInventoryInvalid
    | WorkerInventoryInvalid | WorkerObservationUnavailable

  datatype Problem = Problem(resource: string, code: ProblemCode)

  // ---------------------------------------------------------------- what is never taken back

  ghost predicate KeepsWorkers(before: map<string, Worker>, after: map<string, Worker>) {
    forall id | id in before :: id in after && after[id].id == before[id].id && after[id].attempt == before[id].attempt
                                && FW.Mappings(before[id].volumes) <= FW.Mappings(after[id].volumes)
  }

  ghost predicate KeepsAttempt(a: AttemptReceipt, b: AttemptReceipt) {
    b == a.(state := b.state, instances := b.instances) && Elems(a.instances) <= Elems(b.instances)
  }

  ghost predicate KeepsAttempts(before: seq<AttemptReceipt>, after: seq<AttemptReceipt>) {
    |before| == |after| && forall n | 0 <= n < |before| :: KeepsAttempt(before[n], after[n])
  }

  lemma KeepsWorkersTransitive(a: map<string, Worker>, b: map<string, Worker>, c: map<string, Worker>)
    requires KeepsWorkers(a, b) && KeepsWorkers(b, c)
    ensures KeepsWorkers(a, c)
  {
  }

  lemma KeepsAttemptsTransitive(a: seq<AttemptReceipt>, b: seq<AttemptReceipt>, c: seq<AttemptReceipt>)
    requires KeepsAttempts(a, b) && KeepsAttempts(b, c)
    ensures KeepsAttempts(a, c)
  {
  }

  /** A reported worker is held with its mappings, and by the attempt it names. */
  ghost predicate Retained(workers: map<string, Worker>, attempts: seq<AttemptReceipt>, index: map<AttemptID, nat>,
                           tag: Option<AttemptID>, id: string, volumes: seq<Volume>) {
    ValidInstanceID(id) ==>
      && id in workers && FW.Mappings(volumes) <= FW.Mappings(workers[id].volumes)
      && (tag.Some? && tag.value in index ==> HeldBy(attempts, index, tag.value, id))
  }

  lemma StaysRetained(w: map<string, Worker>, x: map<string, Worker>, a: seq<AttemptReceipt>, b: seq<AttemptReceipt>,
                      index: map<AttemptID, nat>, tag: Option<AttemptID>, id: string, volumes: seq<Volume>)
    requires KeepsWorkers(w, x) && KeepsAttempts(a, b) && Retained(w, a, index, tag, id, volumes)
    ensures Retained(x, b, index, tag, id, volumes)
  {
    hide ValidInstanceID;
    if ValidInstanceID(id) && tag.Some? && tag.value in index {
      assert id in Elems(a[index[tag.value]].instances);
      assert KeepsAttempt(a[index[tag.value]], b[index[tag.value]]);
    }
  }

  /** `unionInstanceIDs` for one list and one identity. */
  method UnionIDs(ids: seq<string>, id: string) returns (r: seq<string>)
    ensures Sorted(r) && Elems(r) == set x | x in ids + [id] && ValidInstanceID(x)
  {
    hide ValidInstanceID;
    var all := ids + [id];
    r := [];
    for n := 0 to |all|
      invariant Sorted(r) && Elems(r) == set x | x in all[..n] && ValidInstanceID(x)
    {
      assert all[..n + 1] == all[..n] + [all[n]];
      if ValidInstanceID(all[n]) {
        r := SortedInsert(r, all[n]);
      }
    }
    assert all[..|all|] == all;
  }

  ghost predicate ValidIds(attempts: seq<AttemptReceipt>) {
    forall a | a in attempts :: forall id | id in a.instances :: ValidInstanceID(id)
  }

  ghost predicate PlacementClash(w: LaunchChoice, c: LaunchChoice) {
    (w.instanceType != "" && w.instanceType != c.instanceType) || (w.subnet != "" && w.subnet != c.subnet)
    || (w.zone != "" && w.zone != c.zone)
  }

  // ---------------------------------------------------------------- what an observation makes of its answers

  /** What an observation holds. */
  datatype Holding = Holding(attempts: seq<AttemptReceipt>, bounded: bool, errors: seq<Problem>,
                             workers: map<string, Worker>)

  ghost function ProblemOf(id: string, code: ProblemCode): Problem {
    Problem(if ValidInstanceID(id) || ValidFleetID(id) then id else "", code)
  }

  /** A problem ends the bound, and is listed once. */
  ghost function Noted(h: Holding, id: string, code: ProblemCode): (r: Holding)
    ensures r.attempts == h.attempts && r.workers == h.workers
  {
    h.(bounded := false,
       errors := if ProblemOf(id, code) in h.errors then h.errors else h.errors + [ProblemOf(id, code)])
  }

  ghost function NotedIf(h: Holding, condition: bool, id: string, code: ProblemCode): (r: Holding)
    ensures r.attempts == h.attempts && r.workers == h.workers
  {
    hide ValidInstanceID, ValidFleetID;
    if condition then Noted(h, id, code) else h
  }

  /** The attempt of the request that a report names. */
  ghost predicate Tagged(index: map<AttemptID, nat>, tag: Option<AttemptID>) {
    tag.Some? && tag.value in index
  }

  /** The entry of an identity, or else the one that a report of it begins with. */
  ghost function EntryOf(plan: LaunchPlan, index: map<AttemptID, nat>, h: Holding, tag: Option<AttemptID>, id: string,
                         choice: LaunchChoice): Worker {
    if id in h.workers then h.workers[id]
    else if Tagged(index, tag) then FleetWorker(plan, tag.value, id, choice)
    else Worker(id, None, None, NO_CHOICE, IdentityMismatch, [])
  }

  /** A report merged into its entry: mappings are added, a placement is taken over unless it contradicts, and another
      attempt than the known one is a problem. */
  ghost function Entered(plan: LaunchPlan, index: map<AttemptID, nat>, h: Holding, tag: Option<AttemptID>, id: string,
                         choice: LaunchChoice, mappings: seq<Volume>): (r: Holding)
    ensures r.attempts == h.attempts
  {
    hide Noted, FW.Merged;
    var entry := EntryOf(plan, index, h, tag, id, choice);
    var clash := choice != NO_CHOICE && PlacementClash(entry.choice, choice);
    var g := NotedIf(h, Tagged(index, tag) && entry.attempt != tag, id, LaunchIdentityMismatch);
    var merged := entry.(volumes := FW.Merged(entry.volumes, mappings),
                         choice := if choice == NO_CHOICE || clash then entry.choice else choice);
    NotedIf(g, clash, id, LaunchIdentityMismatch).(workers := h.workers[id := merged])
  }

  /** The attempt holds the identity; one that did not is no longer known to be bounded, which contradicts a terminal
      one. */
  ghost function HeldIn(h: Holding, n: nat, id: string): (r: Holding)
    requires n < |h.attempts|
    ensures |r.attempts| == |h.attempts| && forall k | 0 <= k < |h.attempts| :: r.attempts[k].id == h.attempts[k].id
  {
    hide ValidInstanceID, Noted;
    var a := h.attempts[n];
    if id in a.instances then h
    else
      NotedIf(h, a.Terminal(), id, LaunchResponseConflict)
      .(attempts := h.attempts[n := a.(state := Unknown,
                                       instances := SortedOf(set x | x in a.instances + [id] && ValidInstanceID(x)))])
  }

  /** One reported worker. */
  ghost function Taken(s: Snapshot, index: map<AttemptID, nat>, h: Holding, tag: Option<AttemptID>, id: string,
                       choice: LaunchChoice, mappings: seq<Volume>): (r: Holding)
    requires Places(h.attempts, index)
    ensures Places(r.attempts, index)
  {
    hide ValidInstanceID, Noted, NotedIf, Entered, HeldIn;
    if !ValidInstanceID(id) then Noted(h, "", LaunchInventoryInvalid)
    else
      var g := Entered(s.receipt.plan, index, h, tag, id, choice, mappings);
      if !Tagged(index, tag) then Noted(g, id, LaunchIdentityMismatch)
      else HeldIn(NotedIf(g, tag.value !in s.claims, id, LaunchIdentityMismatch), index[tag.value], id)
  }

  ghost function ScanIds(rows: seq<ScanRow>): set<string> {
    set r | r in rows :: r.id
  }

  /** Rows of the inventory; `seen` are the identities of the rows before them. */
  ghost function RowsTaken(s: Snapshot, index: map<AttemptID, nat>, h: Holding, rows: seq<ScanRow>, seen: set<string>)
    : (r: Holding)
    requires Places(h.attempts, index)
    ensures Places(r.attempts, index)
  {
    hide Taken, Noted, Places;
    if rows == [] then h
    else
      var init, row := rows[..|rows| - 1], rows[|rows| - 1];
      var g := Taken(s, index, RowsTaken(s, index, h, init, seen), row.tag, row.id, NO_CHOICE, row.volumes);
      NotedIf(g, !row.valid || !Tagged(index, row.tag) || row.id in seen + ScanIds(init), row.id,
              LaunchIdentityMismatch)
  }

  /** The whole inventory: every row of the pages that are read, and how the read ended. */
  ghost function ScanTaken(s: Snapshot, index: map<AttemptID, nat>, h: Holding,
                           pages: seq<FW.Page<ScanRow>>): (r: Holding)
    requires Places(h.attempts, index)
    ensures Places(r.attempts, index)
  {
    hide RowsTaken, Noted, Places, FW.Extent, FW.StopOf;
    var g := RowsTaken(s, index, h, FW.Rows(pages[..FW.Extent(pages, {})]), {});
    match FW.StopOf(pages, {})
    case PageFailed => Noted(g, "", LaunchInventoryUnavailable)
    case TokenRepeated => Noted(g, "", LaunchInventoryInvalid)
    case _ => g
  }

  /** Identities that a group of a Fleet places in a choice; `odd` says that the group is not what was asked for, and
      `seen` are the identities of the groups before it. */
  ghost function IdsTaken(s: Snapshot, index: map<AttemptID, nat>, h: Holding, tag: AttemptID, choice: LaunchChoice,
                          odd: bool, ids: seq<string>, seen: set<string>): (r: Holding)
    requires Places(h.attempts, index)
    ensures Places(r.attempts, index)
  {
    hide Taken, Noted, Places;
    if ids == [] then h
    else
      var init, id := ids[..|ids| - 1], ids[|ids| - 1];
      NotedIf(Taken(s, index, IdsTaken(s, index, h, tag, choice, odd, init, seen), Some(tag), id, choice, []),
              odd || id in seen + Elems(init), id, FleetIdentityMismatch)
  }

  /** The pool that a group of a Fleet reports is not one of the plan, or its market or platform is another. */
  ghost predicate Odd(plan: LaunchPlan, g: Group) {
    !FleetResponsePool(plan, g.instanceType, "", "", g.launch).ok || g.lifecycle != plan.market || g.platform != ""
  }

  ghost function GroupIds(groups: seq<Group>): set<string> {
    if groups == [] then {} else GroupIds(groups[..|groups| - 1]) + Elems(groups[|groups| - 1].ids)
  }

  ghost function GroupsTaken(s: Snapshot, index: map<AttemptID, nat>, h: Holding, tag: AttemptID, groups: seq<Group>)
    : (r: Holding)
    requires Places(h.attempts, index)
    ensures Places(r.attempts, index)
  {
    hide IdsTaken, Places;
    if groups == [] then h
    else
      var init, g := groups[..|groups| - 1], groups[|groups| - 1];
      IdsTaken(s, index, GroupsTaken(s, index, h, tag, init), tag,
               FleetResponsePool(s.receipt.plan, g.instanceType, "", "", g.launch).choice, Odd(s.receipt.plan, g),
               g.ids, GroupIds(init))
  }

  /** Descriptions of the Fleet of an attempt: there should be one, of the known identity and as it was asked for. */
  ghost function FleetsTaken(s: Snapshot, index: map<AttemptID, nat>, h: Holding, a: AttemptReceipt,
                             fleets: seq<FleetRow>, seen: bool): (r: Holding)
    requires Places(h.attempts, index)
    ensures Places(r.attempts, index)
  {
    hide GroupsTaken, Noted, Places;
    if fleets == [] then h
    else
      var init, f := fleets[..|fleets| - 1], fleets[|fleets| - 1];
      var g := NotedIf(FleetsTaken(s, index, h, a, init, seen), seen || init != [] || f.id != a.fleet || !f.pinned,
                       a.fleet, FleetIdentityMismatch);
      GroupsTaken(s, index, g, a.id, f.groups)
  }

  /** A description that EC2 no longer has ends the read as a last page does. */
  ghost function AsPages(pages: seq<FleetPage>): (r: seq<FW.Page<FleetRow>>)
    ensures |r| == |pages|
  {
    seq(|pages|, n requires 0 <= n < |pages| =>
      if pages[n].gone then FW.Page(pages[n].fleets, false, "")
      else FW.Page(pages[n].fleets, pages[n].failed, pages[n].next))
  }

  /** The inspection of one Fleet. */
  ghost function FleetTaken(s: Snapshot, index: map<AttemptID, nat>, h: Holding, a: AttemptReceipt,
                            pages: seq<FleetPage>): (r: Holding)
    requires Places(h.attempts, index)
    ensures Places(r.attempts, index)
  {
    hide FleetsTaken, Noted, Places, FW.Extent, FW.StopOf;
    if !ValidFleetID(a.fleet) then Noted(h, "", FleetIdentityMismatch)
    else
      var g := FleetsTaken(s, index, h, a, FleetsRead(pages[..FW.Extent(AsPages(pages), {})]), false);
      match FW.StopOf(AsPages(pages), {})
      case PageFailed => Noted(g, a.fleet, FleetObservationUnavailable)
      case TokenRepeated => Noted(g, a.fleet, FleetInventoryInvalid)
      case _ => g
  }

  /** The inspection of a Fleet was given up. */
  ghost predicate FleetCut(fleets: map<AttemptID, seq<FleetPage>>, a: AttemptReceipt) {
    ValidFleetID(a.fleet) && FW.StopOf(AsPages(PagesOf(fleets, a.id)), {}) == FW.GaveUp
  }

  /** The Fleets of the first `n` attempts, as far as they are known, until one inspection is given up. */
  ghost function AllFleetsTaken(s: Snapshot, index: map<AttemptID, nat>, h: Holding,
                                fleets: map<AttemptID, seq<FleetPage>>, n: nat): (r: (Holding, bool))
    requires Places(h.attempts, index) && n <= |s.receipt.attempts|
    ensures Places(r.0.attempts, index)
  {
    hide FleetTaken, Places, FleetCut;
    if n == 0 then (h, false)
    else
      var before, a := AllFleetsTaken(s, index, h, fleets, n - 1), s.receipt.attempts[n - 1];
      if before.1 || a.fleet == "" then before
      else (FleetTaken(s, index, before.0, a, PagesOf(fleets, a.id)), FleetCut(fleets, a))
  }

  /** What one exact inspection has made of an observation, and what it has seen. */
  datatype Inspecting = Inspecting(held: Holding, sight: Sight)

  ghost function ExactTaken(s: Snapshot, index: map<AttemptID, nat>, i: Inspecting, id: string, original: bool,
                            row: ExactRow): (r: Inspecting)
    requires Places(i.held.attempts, index)
    ensures Places(r.held.attempts, index)
  {
    hide Taken, Noted;
    var again, ended := row.row.id in i.sight.seen, Removed(original, id, row);
    var g := NotedIf(Taken(s, index, i.held, row.tag, row.row.id, NO_CHOICE, row.row.volumes), again, row.row.id,
                     WorkerInventoryInvalid);
    Inspecting(NotedIf(g, ended && !row.matches, row.row.id, LaunchIdentityMismatch),
               Sight(i.sight.gone || ended, i.sight.live || !ended,
                     i.sight.failed || again || (ended && !row.matches), i.sight.seen + {row.row.id}))
  }

  ghost function ExactsTaken(s: Snapshot, index: map<AttemptID, nat>, i: Inspecting, id: string, original: bool,
                             rows: seq<ExactRow>): (r: Inspecting)
    requires Places(i.held.attempts, index)
    ensures Places(r.held.attempts, index)
  {
    hide ExactTaken, Places;
    if rows == [] then i
    else
      ExactTaken(s, index, ExactsTaken(s, index, i, id, original, rows[..|rows| - 1]), id, original, rows[|rows| - 1])
  }

  ghost function PagesTaken(s: Snapshot, index: map<AttemptID, nat>, i: Inspecting, id: string, original: bool,
                            pages: seq<ExactPage>): (r: Inspecting)
    requires Places(i.held.attempts, index)
    ensures Places(r.held.attempts, index)
  {
    hide ExactsTaken, Places;
    if pages == [] then i
    else
      var j, p := PagesTaken(s, index, i, id, original, pages[..|pages| - 1]), pages[|pages| - 1];
      if !p.answered then
        j.(sight := if Vanished(original, p) then j.sight.(gone := true) else j.sight.(failed := true))
      else
        var k := ExactsTaken(s, index, j, id, original, p.rows);
        k.(sight := k.sight.(gone := k.sight.gone || p.rows == [], failed := k.sight.failed || p.error.Some?))
  }

  const UNSEEN := Sight(false, false, false, {})

  /** What the verifier makes of one known worker, and what it finds wrong. */
  ghost function Verdict(plan: LaunchPlan, a: AttemptReceipt, known: Worker, original: bool, answer: Inspection)
    : (Worker, Option<FW.InspectionError>, nat)
  {
    var b, shown := a.(instances := [known.id]), AllShown(original, known.id, answer.instances);
    var last := FW.LastSight(plan, b, [known], shown, answer.volumes).workers;
    (if known.id in last then last[known.id].worker.(status := FW.StatusOf(last[known.id])) else known,
     FW.InspectionFailure(plan, b, [known], shown, answer.volumes),
     FW.InstancePages(FW.AllBlank(plan, b.id, b.instances, [known]), shown))
  }

  /** The inspection of one known worker: it is history if the reads show nothing but its end and go wrong in nothing
      else, and otherwise what the verifier says of it. */
  ghost function OneInspected(s: Snapshot, index: map<AttemptID, nat>, h: Holding, id: string, n: nat, original: bool,
                              answer: Inspection): (r: Holding)
    requires Places(h.attempts, index) && id in h.workers && n < |h.attempts|
    ensures Places(r.attempts, index)
  {
    hide PagesTaken, Verdict, Noted, FW.Merged;
    var (worker, failure, read) := Verdict(s.receipt.plan, h.attempts[n], h.workers[id], original, answer);
    var taken := PagesTaken(s, index, Inspecting(h, UNSEEN), id, original,
                            answer.instances[..if read <= |answer.instances| then read else 0]);
    var history := original && taken.sight.gone && !taken.sight.failed && !taken.sight.live && !answer.cancelled
                   && (failure.None? || failure == Some(FW.WorkerObservationUnavailable));
    var g := NotedIf(taken.held, !history && (failure.Some? || answer.cancelled), id, WorkerObservationUnavailable);
    var held := if id in taken.held.workers then taken.held.workers[id].volumes else [];
    g.(workers := g.workers[id := worker.(status := if history then Historical else worker.status,
                                          volumes := FW.Merged(worker.volumes, held))])
  }

  /** What the exact inspections of these workers make of an observation; one without an answer, or cancelled, is the
      last. */
  ghost function AllInspected(s: Snapshot, index: map<AttemptID, nat>, historical: set<string>, h: Holding,
                              ids: seq<string>, answers: map<string, Inspection>): (r: (Holding, bool))
    requires Places(h.attempts, index)
    ensures Places(r.0.attempts, index)
    decreases |ids|
  {
    hide OneInspected;
    if ids == [] then (h, false)
    else
      var id := ids[0];
      if id !in answers then (h, true)
      else if !Named(h.workers, index, id) then AllInspected(s, index, historical, h, ids[1..], answers)
      else
        var g := OneInspected(s, index, h, id, index[h.workers[id].attempt.value], id in historical, answers[id]);
        if answers[id].cancelled then (g, true) else AllInspected(s, index, historical, g, ids[1..], answers)
  }

  class LaunchReconciler {
    const snapshot: Snapshot
    var attempts: seq<AttemptReceipt>
    var bounded: bool
    var errors: seq<Problem>
    var index: map<AttemptID, nat>
    var workers: map<string, Worker>
    var historical: set<string>

    /** Doubt is recorded before anything changes: an observation that still counts as bounded shows exactly the
        shared history, all of it bounded by shared responses, and no problem at all; and only a problem ends it. */
    ghost predicate Sealed()
      reads this
    {
      && (bounded <==> errors == [] && AllBound(snapshot))
      && (bounded ==> attempts == snapshot.receipt.attempts)
    }

    ghost predicate Shape()
      reads this
    {
      && KeepsAttempts(snapshot.receipt.attempts, attempts) && ValidIds(attempts)
      && Places(attempts, index)
      && Keyed(workers)
    }

    ghost function State(): Holding
      reads this
    {
      Holding(attempts, bounded, errors, workers)
    }

    constructor (s: Snapshot, known: map<string, Worker>)
      ensures snapshot == s && attempts == s.receipt.attempts && bounded && errors == [] && index == map[]
              && workers == known && historical == {}
    {
      snapshot, attempts, bounded, errors, index, workers, historical := s, s.receipt.attempts, true, [], map[], known,
      {};
    }

    /** `problem`: the observation stops being bounded, whatever the identity or code. */
    method AddProblem(id: string, code: ProblemCode)
      modifies this`bounded, this`errors
      ensures State() == Noted(old(State()), id, code)
      ensures !bounded && Sealed() && (old(Shape()) ==> Shape())
      ensures var resource := if ValidInstanceID(id) || ValidFleetID(id) then id else "";
              Problem(resource, code) in errors && old(errors) <= errors
    {
      bounded := false;
      var resource := if ValidInstanceID(id) || ValidFleetID(id) then id else "";
      if Problem(resource, code) !in errors {
        errors := errors + [Problem(resource, code)];
      }
    }

    /** The entry a report is merged into: the one there is, which should name the same attempt, or a new one. */
    method FindEntry(tag: Option<AttemptID>, id: string, choice: LaunchChoice) returns (worker: Worker)
      requires Shape()
      modifies this`bounded, this`errors
      ensures worker == EntryOf(snapshot.receipt.plan, index, old(State()), tag, id, choice) && worker.id == id
      ensures State() == NotedIf(old(State()), Tagged(index, tag) && worker.attempt != tag, id, LaunchIdentityMismatch)
      ensures bounded ==> old(bounded) && errors == old(errors)
      ensures bounded || errors != [] || (!old(bounded) && old(errors) == [])
      ensures old(errors) <= errors
    {
      hide ValidInstanceID, ValidFleetID, KeepsAttempts, ValidIds, AllBound, Places, Sealed, Noted;
      if id in workers {
        worker := workers[id];
        if tag.Some? && tag.value in index && worker.attempt != tag {
          AddProblem(id, LaunchIdentityMismatch);
        }
      } else if tag.Some? && tag.value in index {
        worker := FleetWorker(snapshot.receipt.plan, tag.value, id, choice);
      } else {
        worker := Worker(id, None, None, NO_CHOICE, IdentityMismatch, []);
      }
    }

    /** A reported placement is taken over, unless it contradicts what is known. */
    method PlaceWorker(known: Worker, choice: LaunchChoice) returns (worker: Worker)
      modifies this`bounded, this`errors
      ensures var clash := choice != NO_CHOICE && PlacementClash(known.choice, choice);
              && worker == known.(choice := if choice == NO_CHOICE || clash then known.choice else choice)
              && State() == NotedIf(old(State()), clash, known.id, LaunchIdentityMismatch)
      ensures bounded ==> old(bounded) && errors == old(errors)
      ensures bounded || errors != [] || (!old(bounded) && old(errors) == [])
      ensures old(errors) <= errors
    {
      hide ValidInstanceID, ValidFleetID, Sealed, Shape, Noted;
      worker := known;
      if choice == NO_CHOICE {
        return;
      }
      var w := known.choice;
      if (w.instanceType != "" && w.instanceType != choice.instanceType)
         || (w.subnet != "" && w.subnet != choice.subnet) || (w.zone != "" && w.zone != choice.zone) {
        AddProblem(known.id, LaunchIdentityMismatch);
      } else {
        worker := worker.(choice := choice);
      }
    }

    /** The worker entry after one report; its identity and mappings only grow. */
    method MergeWorker(tag: Option<AttemptID>, id: string, choice: LaunchChoice, mappings: seq<Volume>)
      requires Shape() && ValidInstanceID(id)
      modifies this`bounded, this`errors, this`workers
      ensures State() == Entered(snapshot.receipt.plan, index, old(State()), tag, id, choice, mappings)
      ensures KeepsWorkers(old(workers), workers) && id in workers
              && FW.Mappings(mappings) <= FW.Mappings(workers[id].volumes)
      ensures Keyed(workers)
      ensures bounded ==> old(bounded) && errors == old(errors)
      ensures bounded || errors != [] || (!old(bounded) && old(errors) == [])
      ensures old(errors) <= errors
    {
      hide ValidInstanceID, ValidFleetID, KeepsAttempts, ValidIds, AllBound, FW.Mappings, Places, Sealed, FW.Merged,
           NotedIf, PlacementClash;
      var entry := FindEntry(tag, id, choice);
      var volumes := FW.MergeVolumes(entry.volumes, mappings);
      var worker := PlaceWorker(entry.(volumes := volumes), choice);
      workers := workers[id := worker];
    }

    /** The attempt named by a report holds the identity afterwards; a new one makes the attempt unknown. */
    method HoldIdentity(tag: AttemptID, id: string)
      requires Shape() && Sealed() && ValidInstanceID(id) && tag in index
      modifies this`bounded, this`errors, this`attempts
      ensures State() == HeldIn(old(State()), index[tag], id)
      ensures Shape() && Sealed() && KeepsAttempts(old(attempts), attempts) && HeldBy(attempts, index, tag, id)
      ensures bounded ==> old(bounded)
    {
      hide ValidInstanceID, AllBound, KeepsAttempts, ValidIds;
      var n := index[tag];
      AttemptsReflexive(attempts);
      if id !in attempts[n].instances {
        if attempts[n].Terminal() {
          AddProblem(id, LaunchResponseConflict);
        } else if bounded {
          BoundIsTerminal(snapshot, n);
        }
        var ids := UnionIDs(attempts[n].instances, id);
        HeldUpdate(snapshot.receipt.attempts, attempts, n, id, ids);
        SortedUnique(ids, SortedOf(set x | x in attempts[n].instances + [id] && ValidInstanceID(x)));
        attempts := attempts[n := attempts[n].(state := Unknown, instances := ids)];
      }
    }

    /** What every observation step keeps, whatever it is told. */
    ghost predicate Grown(was: bool, a: seq<AttemptReceipt>, w: map<string, Worker>)
      reads this
    {
      Shape() && Sealed() && KeepsAttempts(a, attempts) && KeepsWorkers(w, workers) && (bounded ==> was)
    }

    /** `retain`: one reported worker. */
    method Retain(tag: Option<AttemptID>, id: string, choice: LaunchChoice, mappings: seq<Volume>)
      requires Shape() && Sealed()
      modifies this`bounded, this`errors, this`workers, this`attempts
      ensures State() == Taken(snapshot, index, old(State()), tag, id, choice, mappings)
      ensures Grown(old(bounded), old(attempts), old(workers)) && Retained(workers, attempts, index, tag, id, mappings)
      ensures !ValidInstanceID(id) || tag.None? || tag.value !in index || tag.value !in snapshot.claims ==> !bounded
    {
      hide ValidInstanceID, AllBound, KeepsAttempts, ValidIds, Entered, HeldIn;
      AttemptsReflexive(attempts);
      if !ValidInstanceID(id) {
        AddProblem("", LaunchInventoryInvalid);
        return;
      }
      MergeWorker(tag, id, choice, mappings);
      if tag.None? || tag.value !in index {
        AddProblem(id, LaunchIdentityMismatch);
        return;
      }
      if tag.value !in snapshot.claims {
        AddProblem(id, LaunchIdentityMismatch);
      }
      HoldIdentity(tag.value, id);
    }

    /** One reported worker, and what is wrong with the report itself. */
    method Report(tag: Option<AttemptID>, id: string, choice: LaunchChoice, mappings: seq<Volume>, wrong: bool,
                  code: ProblemCode)
      requires Shape() && Sealed()
      modifies this`bounded, this`errors, this`workers, this`attempts
      ensures Places(old(attempts), index) && Places(attempts, index)
      ensures State() == NotedIf(Taken(snapshot, index, old(State()), tag, id, choice, mappings), wrong, id, code)
      ensures Grown(old(bounded), old(attempts), old(workers)) && Retained(workers, attempts, index, tag, id, mappings)
      ensures wrong ==> !bounded
    {
      hide ValidInstanceID, ValidFleetID, AllBound, KeepsAttempts, ValidIds, KeepsWorkers, Shape, Sealed, Retained,
           Taken, Noted, Places;
      InPlace();
      Retain(tag, id, choice, mappings);
      if wrong {
        AddProblem(id, code);
      }
      InPlace();
    }

    lemma InPlace()
      requires Shape()
      ensures Places(attempts, index)
    {
    }

    /** The rows of one inventory page. */
    method ScanRows(rows: seq<ScanRow>, seen: set<string>) returns (ids: set<string>)
      requires Shape() && Sealed()
      modifies this`bounded, this`errors, this`workers, this`attempts
      ensures State() == RowsTaken(snapshot, index, old(State()), rows, seen) && ids == seen + ScanIds(rows)
      ensures Grown(old(bounded), old(attempts), old(workers))
      ensures forall row | row in rows :: Retained(workers, attempts, index, row.tag, row.id, row.volumes)
      ensures bounded ==> forall row | row in rows :: row.valid && row.tag.Some? && row.tag.value in index
    {
      hide ValidInstanceID, AllBound, KeepsAttempts, ValidIds, KeepsWorkers, Retained, Shape, Sealed, Taken, NotedIf,
           Places;
      ids := seen;
      KeepsReflexive(attempts, workers);
      InPlace();
      ghost var a0, w0, was, first := attempts, workers, bounded, State();
      for n := 0 to |rows|
        invariant Grown(was, a0, w0) && Places(attempts, index)
        invariant State() == RowsTaken(snapshot, index, first, rows[..n], seen) && ids == seen + ScanIds(rows[..n])
        invariant forall row | row in rows[..n] :: Retained(workers, attempts, index, row.tag, row.id, row.volumes)
        invariant bounded ==> forall row | row in rows[..n] :: row.valid && row.tag.Some? && row.tag.value in index
      {
        var row := rows[n];
        assert rows[..n + 1] == rows[..n] + [row] && rows[..n + 1][..n] == rows[..n];
        ghost var a1, w1 := attempts, workers;
        Report(row.tag, row.id, NO_CHOICE, row.volumes,
               !row.valid || row.tag.None? || row.tag.value !in index || row.id in ids, LaunchIdentityMismatch);
        KeepsTransitive(a0, a1, attempts, w0, w1, workers);
        RowsStayRetained(w1, workers, a1, attempts, index, rows[..n]);
        ids := ids + {row.id};
      }
      assert rows[..|rows|] == rows;
    }

    /** The paginated inventory of the request. `read` pages were taken in before the end, a failure, a repeated
        token, or cancellation. */
    method Scan(pages: seq<FW.Page<ScanRow>>) returns (read: nat, cancelled: bool)
      requires Shape() && Sealed()
      modifies this`bounded, this`errors, this`workers, this`attempts
      ensures State() == ScanTaken(snapshot, index, old(State()), pages)
      ensures read == FW.Extent(pages, {}) && (cancelled <==> FW.StopOf(pages, {}) == FW.GaveUp)
      ensures Grown(old(bounded), old(attempts), old(workers))
      ensures forall row | row in FW.Rows(pages[..read]) ::
                Retained(workers, attempts, index, row.tag, row.id, row.volumes)
      ensures bounded && !cancelled ==> 0 < read && pages[read - 1].next == "" && !pages[read - 1].failed
    {
      hide ValidInstanceID, AllBound, KeepsAttempts, ValidIds, KeepsWorkers, Retained, Shape, Sealed, RowsTaken, Noted,
           Places, FW.Extent, FW.StopOf, FW.Underway, ScanIds;
      read, cancelled := 0, false;
      KeepsReflexive(attempts, workers);
      InPlace();
      NoScanRows(snapshot, index, State(), pages);
      ghost var a0, w0, was, first := attempts, workers, bounded, State();
      var tokens, ids := {}, {};
      while true
        invariant Grown(was, a0, w0) && read <= |pages| && !cancelled && Places(attempts, index)
        invariant "" !in tokens && FW.Underway(pages, read, tokens) && ids == {} + ScanIds(FW.Rows(pages[..read]))
        invariant State() == RowsTaken(snapshot, index, first, FW.Rows(pages[..read]), {})
        invariant forall row | row in FW.Rows(pages[..read]) ::
                    Retained(workers, attempts, index, row.tag, row.id, row.volumes)
        decreases |pages| - read
      {
        if read == |pages| {
          FW.AllPagesTaken(pages, tokens);
          cancelled := true;
          return;
        }
        var page := pages[read];
        ghost var a1, w1 := attempts, workers;
        FW.OnePageMore(pages, read, tokens);
        ids := ScanRows(page.rows, ids);
        InPlace();
        KeepsTransitive(a0, a1, attempts, w0, w1, workers);
        RowsStayRetained(w1, workers, a1, attempts, index, FW.Rows(pages[..read]));
        FW.RowsOne(pages, read);
        RowsTakenJoin(snapshot, index, first, FW.Rows(pages[..read]), page.rows, {});
        read := read + 1;
        if page.failed || page.next in tokens {
          AddProblem("", if page.failed then LaunchInventoryUnavailable else LaunchInventoryInvalid);
          return;
        }
        if page.next == "" {
          return;
        }
        tokens := tokens + {page.next};
      }
    }

    /** The identities of one instance group of a Fleet description; `seen` are those of the groups before it. */
    method FleetGroup(tag: AttemptID, g: Group, seen: set<string>) returns (ids: set<string>)
      requires Shape() && Sealed()
      modifies this`bounded, this`errors, this`workers, this`attempts
      ensures Places(old(attempts), index) && ids == seen + Elems(g.ids)
      ensures State() == IdsTaken(snapshot, index, old(State()), tag,
                                  FleetResponsePool(snapshot.receipt.plan, g.instanceType, "", "", g.launch).choice,
                                  Odd(snapshot.receipt.plan, g), g.ids, seen)
      ensures Grown(old(bounded), old(attempts), old(workers)) && GroupRetained(workers, attempts, index, tag, g)
    {
      hide KeepsAttempts, ValidIds, KeepsWorkers, Shape, Sealed, Retained, IdsTaken, Places, FleetResponsePool;
      InPlace();
      var pool := FleetResponsePool(snapshot.receipt.plan, g.instanceType, "", "", g.launch);
      var odd := !pool.ok || g.lifecycle != snapshot.receipt.plan.market || g.platform != "";
      ids := FleetIds(tag, pool.choice, odd, g.ids, seen);
    }

    method FleetIds(tag: AttemptID, choice: LaunchChoice, odd: bool, reported: seq<string>, seen: set<string>)
      returns (ids: set<string>)
      requires Shape() && Sealed()
      modifies this`bounded, this`errors, this`workers, this`attempts
      ensures Places(old(attempts), index) && ids == seen + Elems(reported)
      ensures State() == IdsTaken(snapshot, index, old(State()), tag, choice, odd, reported, seen)
      ensures Grown(old(bounded), old(attempts), old(workers))
      ensures forall k | 0 <= k < |reported| :: Retained(workers, attempts, index, Some(tag), reported[k], [])
    {
      hide ValidInstanceID, AllBound, KeepsAttempts, ValidIds, KeepsWorkers, Shape, Sealed, Retained, Taken, NotedIf,
           Places;
      KeepsReflexive(attempts, workers);
      InPlace();
      ghost var a0, w0, was, first := attempts, workers, bounded, State();
      ids := seen;
      for n := 0 to |reported|
        invariant Grown(was, a0, w0) && Places(attempts, index) && ids == seen + Elems(reported[..n])
        invariant State() == IdsTaken(snapshot, index, first, tag, choice, odd, reported[..n], seen)
        invariant forall k | 0 <= k < n :: Retained(workers, attempts, index, Some(tag), reported[k], [])
      {
        var id := reported[n];
        ghost var a1, w1 := attempts, workers;
        assert reported[..n + 1] == reported[..n] + [id] && reported[..n + 1][..n] == reported[..n];
        Report(Some(tag), id, choice, [], odd || id in ids, FleetIdentityMismatch);
        KeepsTransitive(a0, a1, attempts, w0, w1, workers);
        forall k | 0 <= k < n
          ensures Retained(workers, attempts, index, Some(tag), reported[k], [])
        {
          StaysRetained(w1, workers, a1, attempts, index, Some(tag), reported[k], []);
        }
        ids := ids + {id};
      }
      assert reported[..|reported|] == reported;
    }

    /** The groups of one description. */
    method FleetGroups(tag: AttemptID, groups: seq<Group>)
      requires Shape() && Sealed()
      modifies this`bounded, this`errors, this`workers, this`attempts
      ensures State() == GroupsTaken(snapshot, index, old(State()), tag, groups)
      ensures Grown(old(bounded), old(attempts), old(workers))
      ensures forall g | g in groups :: GroupRetained(workers, attempts, index, tag, g)
    {
      hide ValidInstanceID, AllBound, KeepsAttempts, ValidIds, KeepsWorkers, Shape, Sealed, GroupRetained, IdsTaken,
           Places;
      KeepsReflexive(attempts, workers);
      InPlace();
      ghost var a0, w0, was, first := attempts, workers, bounded, State();
      var ids: set<string> := {};
      for k := 0 to |groups|
        invariant Grown(was, a0, w0) && Places(attempts, index)
        invariant State() == GroupsTaken(snapshot, index, first, tag, groups[..k]) && ids == GroupIds(groups[..k])
        invariant forall g | g in groups[..k] :: GroupRetained(workers, attempts, index, tag, g)
      {
        assert groups[..k + 1] == groups[..k] + [groups[k]] && groups[..k + 1][..k] == groups[..k];
        ghost var a1, w1 := attempts, workers;
        ids := FleetGroup(tag, groups[k], ids);
        InPlace();
        KeepsTransitive(a0, a1, attempts, w0, w1, workers);
        GroupsStayRetained(w1, workers, a1, attempts, index, tag);
      }
      assert groups[..|groups|] == groups;
    }

    /** One description: it should be the first, of the known Fleet, and as it was asked for. */
    method OneFleet(a: AttemptReceipt, fleet: FleetRow, seen: bool)
      requires Shape() && Sealed()
      modifies this`bounded, this`errors, this`workers, this`attempts
      ensures Places(old(attempts), index) && Places(attempts, index)
      ensures State() == GroupsTaken(snapshot, index,
                                     NotedIf(old(State()), seen || fleet.id != a.fleet || !fleet.pinned, a.fleet,
                                             FleetIdentityMismatch),
                                     a.id, fleet.groups)
      ensures Grown(old(bounded), old(attempts), old(workers))
      ensures forall g | g in fleet.groups :: GroupRetained(workers, attempts, index, a.id, g)
    {
      hide ValidInstanceID, AllBound, KeepsAttempts, ValidIds, KeepsWorkers, Shape, Sealed, GroupRetained, GroupsTaken,
           Noted, Places;
      InPlace();
      if seen || fleet.id != a.fleet || !fleet.pinned {
        AddProblem(a.fleet, FleetIdentityMismatch);
      }
      FleetGroups(a.id, fleet.groups);
      InPlace();
    }

    /** One page of descriptions of the attempt's own Fleet. */
    method FleetRows(a: AttemptReceipt, fleets: seq<FleetRow>, start: bool) returns (seen: bool)
      requires Shape() && Sealed()
      modifies this`bounded, this`errors, this`workers, this`attempts
      ensures State() == FleetsTaken(snapshot, index, old(State()), a, fleets, start)
      ensures seen <==> start || fleets != []
      ensures Grown(old(bounded), old(attempts), old(workers))
      ensures forall f | f in fleets :: forall g | g in f.groups :: GroupRetained(workers, attempts, index, a.id, g)
    {
      hide ValidInstanceID, AllBound, KeepsAttempts, ValidIds, KeepsWorkers, Shape, Sealed, GroupRetained, GroupsTaken,
           NotedIf, Places;
      KeepsReflexive(attempts, workers);
      InPlace();
      ghost var a0, w0, was, first := attempts, workers, bounded, State();
      seen := start;
      for n := 0 to |fleets|
        invariant Grown(was, a0, w0) && Places(attempts, index)
        invariant State() == FleetsTaken(snapshot, index, first, a, fleets[..n], start) && (seen <==> start || n > 0)
        invariant forall f | f in fleets[..n] :: forall g | g in f.groups ::
                    GroupRetained(workers, attempts, index, a.id, g)
      {
        var fleet := fleets[n];
        assert fleets[..n + 1] == fleets[..n] + [fleet] && fleets[..n + 1][..n] == fleets[..n];
        ghost var a1, w1 := attempts, workers;
        OneFleet(a, fleet, seen);
        seen := true;
        KeepsTransitive(a0, a1, attempts, w0, w1, workers);
        GroupsStayRetained(w1, workers, a1, attempts, index, a.id);
      }
      assert fleets[..|fleets|] == fleets;
    }

    /** Inspection of the Fleet that an attempt is known to have created. Its absence proves nothing. */
    method InspectFleet(a: AttemptReceipt, pages: seq<FleetPage>) returns (read: nat, cancelled: bool)
      requires Shape() && Sealed()
      modifies this`bounded, this`errors, this`workers, this`attempts
      ensures State() == FleetTaken(snapshot, index, old(State()), a, pages)
      ensures read == if ValidFleetID(a.fleet) then FW.Extent(AsPages(pages), {}) else 0
      ensures cancelled <==> ValidFleetID(a.fleet) && FW.StopOf(AsPages(pages), {}) == FW.GaveUp
      ensures Grown(old(bounded), old(attempts), old(workers)) && read <= |pages|
      ensures forall f | f in FleetsRead(pages[..read]) :: forall g | g in f.groups ::
                GroupRetained(workers, attempts, index, a.id, g)
    {
      hide ValidInstanceID, ValidFleetID, AllBound, KeepsAttempts, ValidIds, KeepsWorkers, Shape, Sealed, GroupRetained,
           FleetsTaken, Noted, Places, FW.Extent, FW.StopOf, FW.Underway;
      read, cancelled := 0, false;
      KeepsReflexive(attempts, workers);
      InPlace();
      NoFleetRows(snapshot, index, State(), a, pages);
      ghost var a0, w0, was, first := attempts, workers, bounded, State();
      if !ValidFleetID(a.fleet) {
        AddProblem("", FleetIdentityMismatch);
        return;
      }
      var tokens, seen := {}, false;
      while true
        invariant Grown(was, a0, w0) && read <= |pages| && Places(attempts, index)
        invariant FW.Underway(AsPages(pages), read, tokens) && (seen <==> FleetsRead(pages[..read]) != [])
        invariant State() == FleetsTaken(snapshot, index, first, a, FleetsRead(pages[..read]), false) && !cancelled
        invariant forall f | f in FleetsRead(pages[..read]) :: forall g | g in f.groups ::
                    GroupRetained(workers, attempts, index, a.id, g)
        decreases |pages| - read
      {
        if read == |pages| {
          FW.AllPagesTaken(AsPages(pages), tokens);
          cancelled := true;
          return;
        }
        var page := pages[read];
        ghost var a1, w1 := attempts, workers;
        FW.OnePageMore(AsPages(pages), read, tokens);
        seen := FleetRows(a, page.fleets, seen);
        InPlace();
        FleetsTakenJoin(snapshot, index, first, a, FleetsRead(pages[..read]), page.fleets, false);
        KeepsTransitive(a0, a1, attempts, w0, w1, workers);
        GroupsStayRetained(w1, workers, a1, attempts, index, a.id);
        assert pages[..read + 1][..read] == pages[..read];
        read := read + 1;
        if page.gone || (!page.failed && page.next == "") {
          return;
        }
        if page.failed || page.next in tokens {
          AddProblem(a.fleet, if page.failed then FleetObservationUnavailable else FleetInventoryInvalid);
          return;
        }
        tokens := tokens + {page.next};
      }
    }

    /** The rows of one answered page, as `historicalFleetInventory` takes them in before the verifier sees any. */
    method TakeRows(id: string, original: bool, rows: seq<ExactRow>, start: Sight) returns (sight: Sight)
      requires Shape() && Sealed()
      modifies this`bounded, this`errors, this`workers, this`attempts
      ensures Inspecting(State(), sight)
              == ExactsTaken(snapshot, index, Inspecting(old(State()), start), id, original, rows)
      ensures Grown(old(bounded), old(attempts), old(workers)) && ExactRetained(workers, attempts, index, rows)
      ensures RowsSeen(original, id, rows, start, sight)
    {
      hide ValidInstanceID, AllBound, KeepsAttempts, ValidIds, KeepsWorkers, Retained, Shape, Sealed, RowsSeen, Places,
           ExactTaken, Removed;
      sight := start;
      KeepsReflexive(attempts, workers);
      InPlace();
      NoRowsSeen(original, id, start);
      ghost var a0, w0, was, first := attempts, workers, bounded, Inspecting(State(), start);
      for n := 0 to |rows|
        invariant Grown(was, a0, w0) && ExactRetained(workers, attempts, index, rows[..n])
                  && RowsSeen(original, id, rows[..n], start, sight) && Places(attempts, index)
        invariant Inspecting(State(), sight) == ExactsTaken(snapshot, index, first, id, original, rows[..n])
      {
        var row := rows[n];
        assert rows[..n + 1] == rows[..n] + [row] && rows[..n + 1][..n] == rows[..n];
        ghost var a1, w1, before := attempts, workers, sight;
        sight := TakeRow(id, original, row, sight);
        KeepsTransitive(a0, a1, attempts, w0, w1, workers);
        ExactStayRetained(w1, workers, a1, attempts, index, rows[..n]);
        OneRowSeen(original, id, rows[..n], row, start, before, sight);
      }
      assert rows[..|rows|] == rows;
    }

    /** The body of that loop: one row is retained, and tells whether the inspected worker lives or has ended. */
    method TakeRow(id: string, original: bool, row: ExactRow, start: Sight) returns (sight: Sight)
      requires Shape() && Sealed()
      modifies this`bounded, this`errors, this`workers, this`attempts
      ensures Places(old(attempts), index) && Places(attempts, index)
      ensures Inspecting(State(), sight)
              == ExactTaken(snapshot, index, Inspecting(old(State()), start), id, original, row)
      ensures Grown(old(bounded), old(attempts), old(workers))
              && Retained(workers, attempts, index, row.tag, row.row.id, row.row.volumes)
      ensures sight.seen == start.seen + {row.row.id} && (sight.live <==> start.live || !Removed(original, id, row))
      ensures sight.gone <==> start.gone || Removed(original, id, row)
      ensures sight.failed <==>
                start.failed || row.row.id in start.seen || (Removed(original, id, row) && !row.matches)
    {
      hide ValidInstanceID, AllBound, KeepsAttempts, ValidIds, KeepsWorkers, Retained, Shape, Sealed, Taken, Noted,
           Places;
      var again := row.row.id in start.seen;
      Report(row.tag, row.row.id, NO_CHOICE, row.row.volumes, again, WorkerInventoryInvalid);
      sight := start.(failed := start.failed || again, seen := start.seen + {row.row.id});
      if original && row.row.id == id && row.terminal {
        if !row.matches {
          AddProblem(row.row.id, LaunchIdentityMismatch);
        }
        sight := sight.(gone := true, failed := sight.failed || !row.matches);
      } else {
        sight := sight.(live := true);
      }
      InPlace();
    }

    /** The pages of one exact inspection, in the order in which the verifier asks for them. */
    method TakePages(id: string, original: bool, pages: seq<ExactPage>) returns (sight: Sight)
      requires Shape() && Sealed()
      modifies this`bounded, this`errors, this`workers, this`attempts
      ensures Grown(old(bounded), old(attempts), old(workers))
              && ExactRetained(workers, attempts, index, ExactRows(pages))
      ensures Inspecting(State(), sight)
              == PagesTaken(snapshot, index, Inspecting(old(State()), UNSEEN), id, original, pages)
      ensures Sees(original, id, pages, sight)
    {
      hide ValidInstanceID, AllBound, KeepsAttempts, ValidIds, KeepsWorkers, ExactRetained, Shape, Sealed, RowsSeen,
           Sees, ExactsTaken, Places;
      sight := Sight(false, false, false, {});
      KeepsReflexive(attempts, workers);
      NothingSeen(original, id);
      NothingRetained(workers, attempts, index);
      InPlace();
      ghost var a0, w0, was, first := attempts, workers, bounded, Inspecting(State(), UNSEEN);
      for n := 0 to |pages|
        invariant Places(attempts, index)
        invariant Inspecting(State(), sight) == PagesTaken(snapshot, index, first, id, original, pages[..n])
        invariant Grown(was, a0, w0) && ExactRetained(workers, attempts, index, ExactRows(pages[..n]))
                  && Sees(original, id, pages[..n], sight)
      {
        var page := pages[n];
        assert pages[..n + 1] == pages[..n] + [page] && pages[..n + 1][..n] == pages[..n];
        ghost var a1, w1, before := attempts, workers, sight;
        if page.answered {
          sight := TakeRows(id, original, page.rows, sight);
          InPlace();
          KeepsTransitive(a0, a1, attempts, w0, w1, workers);
          ExactStayRetained(w1, workers, a1, attempts, index, ExactRows(pages[..n]));
          ExactJoin(workers, attempts, index, ExactRows(pages[..n]), page.rows);
          ghost var taken := sight;
          sight := sight.(gone := sight.gone || page.rows == [], failed := sight.failed || page.error.Some?);
          AnsweredSeen(original, id, pages[..n], page, before, taken, sight);
        } else {
          if original && page.error == Some(NoSuchInstance) {
            sight := sight.(gone := true);
          } else {
            sight := sight.(failed := true);
          }
          assert ExactRows(pages[..n + 1]) == ExactRows(pages[..n]);
          UnansweredSeen(original, id, pages[..n], page, before, sight);
        }
      }
      assert pages[..|pages|] == pages;
    }

    /** Exact inspection of one known worker. The reads of the verifier go through the reconciler, which retains every
        row of them, whomever it is about; only then does the verified form of the worker take its place. */
    method VerifyOne(id: string, n: nat, answer: Inspection) returns (read: nat)
      requires Shape() && Sealed() && id in workers && n < |attempts|
      modifies this`bounded, this`errors, this`workers, this`attempts
      ensures State() == OneInspected(snapshot, index, old(State()), id, n, id in historical, answer)
      ensures read == Verdict(snapshot.receipt.plan, old(attempts)[n], old(workers)[id], id in historical, answer).2
      ensures Grown(old(bounded), old(attempts), old(workers)) && read <= |answer.instances|
      ensures ExactRetained(workers, attempts, index, ExactRows(answer.instances[..read]))
      ensures id in workers && (workers[id].status.Historical? ==>
                id in historical && Departed(id, answer.instances[..read]))
      ensures bounded ==> workers[id].status == Allocated || workers[id].status == Historical
    {
      hide ValidInstanceID, AllBound, KeepsAttempts, KeepsWorkers, Shape, Sealed, ValidIds, ExactRetained, Sees,
           Departed, FW.Mappings, Verdict, PagesTaken, Noted, FW.Merged, Places;
      InPlace();
      var original, plan := id in historical, snapshot.receipt.plan;
      NamedById(id);
      var worker, problem;
      var shown := ShowPages(original, id, answer.instances);
      worker, problem, read := InspectOne(plan, attempts[n], workers[id], original, answer, shown);
      ghost var a0, w0 := attempts, workers;
      var sight := TakePages(id, original, answer.instances[..read]);
      ghost var a1, w1 := attempts, workers;
      StillKnown(w0, w1, id);
      var onlyGone := (problem.None? || problem.value.WorkerObservationUnavailable?) && !answer.cancelled;
      if original && sight.gone && !sight.failed && !sight.live && onlyGone {
        worker := worker.(status := Historical);
        SeenDeparted(id, answer.instances[..read], sight);
      } else if problem.Some? || answer.cancelled {
        AddProblem(id, WorkerObservationUnavailable);
      }
      InPlace();
      Replace(id, worker, ExactRows(answer.instances[..read]));
      KeepsTransitive(a0, a1, attempts, w0, w1, workers);
    }

    /** Exact inspection of one worker that names an attempt. */
    method VerifyKnown(id: string, answer: Inspection) returns (read: nat)
      requires Shape() && Sealed() && Named(workers, index, id)
      modifies this`bounded, this`errors, this`workers, this`attempts
      ensures old(Places(attempts, index)) && Places(attempts, index)
      ensures old(index[workers[id].attempt.value]) < |old(attempts)|
      ensures State() == OneInspected(snapshot, index, old(State()), id, old(index[workers[id].attempt.value]),
                                      id in historical, answer)
      ensures Grown(old(bounded), old(attempts), old(workers)) && read <= |answer.instances|
      ensures ExactRetained(workers, attempts, index, ExactRows(answer.instances[..read]))
    {
      hide ValidInstanceID, AllBound, KeepsAttempts, KeepsWorkers, Sealed, ValidIds, ExactRetained, Departed,
           FW.Mappings, Verdict, OneInspected;
      read := VerifyOne(id, index[workers[id].attempt.value], answer);
    }

    lemma NamedById(id: string)
      requires Shape() && id in workers
      ensures workers[id].id == id
    {
      hide KeepsAttempts, ValidIds;
    }

    lemma StillKnown(before: map<string, Worker>, after: map<string, Worker>, id: string)
      requires KeepsWorkers(before, after) && id in before
      ensures id in after && after[id].id == before[id].id && after[id].attempt == before[id].attempt
    {
      hide FW.Mappings;
    }

    /** A verified worker takes the place of its entry, with every mapping that the entry holds by now. */
    method Replace(id: string, found: Worker, ghost rows: seq<ExactRow>)
      requires Shape() && Sealed() && id in workers && found.id == id && found.attempt == workers[id].attempt
      requires ExactRetained(workers, attempts, index, rows)
      modifies this`workers
      ensures Shape() && Sealed() && KeepsAttempts(attempts, attempts) && KeepsWorkers(old(workers), workers)
      ensures id in old(workers)
              && workers == old(workers)[id := found.(volumes := FW.Merged(found.volumes, old(workers)[id].volumes))]
      ensures id in workers && workers[id].status == found.status && ExactRetained(workers, attempts, index, rows)
    {
      hide ValidInstanceID, AllBound, KeepsAttempts, ValidIds, ExactRetained, FW.Mappings;
      ghost var before := workers;
      var volumes := FW.MergeVolumes(found.volumes, workers[id].volumes);
      workers := workers[id := found.(volumes := volumes)];
      AttemptsReflexive(attempts);
      ExactStayRetained(before, workers, attempts, attempts, index, rows);
    }

    /** The loop over every worker known when it starts, in identity order; an identity without an answer is a
        cancellation. `exactRead[id]` pages of the inspection of `id` were read. */
    method Verify(answers: map<string, Inspection>) returns (cancelled: bool, exactRead: map<string, nat>)
      requires Shape() && Sealed()
      modifies this`bounded, this`errors, this`workers, this`attempts
      ensures (State(), cancelled)
              == AllInspected(snapshot, index, historical, old(State()), SortedOf(old(workers).Keys), answers)
      ensures Grown(old(bounded), old(attempts), old(workers))
              && AnswersRetained(workers, attempts, index, answers, exactRead)
      ensures !cancelled ==> Inspected(old(workers), index, exactRead)
    {
      hide ValidInstanceID, AllBound, KeepsAttempts, ValidIds, Sealed, AnswersRetained, Keyed, OneInspected, Verdict,
           Places, Shape, KeepsWorkers, AllInspected;
      KeepsReflexive(attempts, workers);
      InPlace();
      ghost var first := State();
      exactRead := map[];
      NoAnswers(workers, attempts, index, answers);
      ghost var a0, w0, was := attempts, workers, bounded;
      var ids := SortedKeys(workers);
      SortedUnique(ids, SortedOf(workers.Keys));
      assert ids[0..] == ids;
      for n := 0 to |ids|
        invariant Places(attempts, index)
        invariant AllInspected(snapshot, index, historical, first, ids, answers)
                  == AllInspected(snapshot, index, historical, State(), ids[n..], answers)
        invariant Grown(was, a0, w0) && AnswersRetained(workers, attempts, index, answers, exactRead)
        invariant forall k | 0 <= k < n && Named(w0, index, ids[k]) :: ids[k] in exactRead
      {
        var id := ids[n];
        assert id in Elems(ids);
        StillNamed(w0, workers, index, id);
        InspectedStep(snapshot, index, historical, State(), ids, n, answers);
        if id !in answers {
          return true, exactRead;
        }
        var known := workers[id];
        if known.attempt.Some? && known.attempt.value in index {
          ghost var a1, w1 := attempts, workers;
          var read := VerifyKnown(id, answers[id]);
          KeepsTransitive(a0, a1, attempts, w0, w1, workers);
          AnswersGrow(w1, workers, a1, attempts, index, answers, exactRead, id, read);
          exactRead := exactRead[id := read];
          if answers[id].cancelled {
            return true, exactRead;
          }
        }
      }
      InspectedEnd(snapshot, index, historical, State(), ids, answers);
      forall id | Named(w0, index, id)
        ensures id in exactRead
      {
        assert id in Elems(ids);
      }
      return false, exactRead;
    }

    lemma StillNamed(before: map<string, Worker>, after: map<string, Worker>, index: map<AttemptID, nat>, id: string)
      requires KeepsWorkers(before, after) && id in before
      ensures id in after && (Named(before, index, id) <==> Named(after, index, id))
    {
      hide FW.Mappings;
    }

    /** Every attempt with a known Fleet is inspected; `pagesRead[n]` pages of the n-th were taken in. */
    method InspectFleets(fleets: map<AttemptID, seq<FleetPage>>) returns (pagesRead: seq<nat>, cancelled: bool)
      requires Shape() && Sealed()
      modifies this`bounded, this`errors, this`workers, this`attempts
      ensures (State(), cancelled)
              == AllFleetsTaken(snapshot, index, old(State()), fleets, |snapshot.receipt.attempts|)
      ensures Grown(old(bounded), old(attempts), old(workers)) && |pagesRead| == |snapshot.receipt.attempts|
      ensures forall n | 0 <= n < |pagesRead| ::
                FleetRetained(workers, attempts, index, snapshot.receipt.attempts[n].id, fleets, pagesRead[n])
    {
      hide ValidInstanceID, AllBound, KeepsAttempts, ValidIds, KeepsWorkers, Shape, Sealed, FleetRetained, FleetTaken,
           Places, ValidFleetID, FW.StopOf, FW.Extent;
      pagesRead, cancelled := [], false;
      KeepsReflexive(attempts, workers);
      InPlace();
      ghost var a0, w0, was, first := attempts, workers, bounded, State();
      for n := 0 to |snapshot.receipt.attempts|
        invariant Grown(was, a0, w0) && |pagesRead| == n && Places(attempts, index)
        invariant (State(), cancelled) == AllFleetsTaken(snapshot, index, first, fleets, n)
        invariant forall k | 0 <= k < n ::
                    FleetRetained(workers, attempts, index, snapshot.receipt.attempts[k].id, fleets, pagesRead[k])
      {
        var a := snapshot.receipt.attempts[n];
        var read := 0;
        ghost var a1, w1 := attempts, workers;
        if a.fleet != "" && !cancelled {
          read, cancelled := InspectFleet(a, PagesOf(fleets, a.id));
          InPlace();
          KeepsTransitive(a0, a1, attempts, w0, w1, workers);
        }
        FleetReadRetained(workers, attempts, index, a.id, fleets, read);
        forall k | 0 <= k < n
          ensures FleetRetained(workers, attempts, index, snapshot.receipt.attempts[k].id, fleets, pagesRead[k])
        {
          KeepsReflexive(attempts, workers);
          FleetStaysRetained(w1, workers, a1, attempts, index, snapshot.receipt.attempts[k].id, fleets, pagesRead[k]);
        }
        pagesRead := pagesRead + [read];
      }
    }

    /** `validate`: the snapshot's records are checked against one another; attempts without a shared bound end the
        claim to be bounded. */
    method Validated() returns (ok: bool)
      requires attempts == snapshot.receipt.attempts && bounded
      modifies this`index, this`historical, this`bounded
      ensures ok == Consistent(snapshot)
      ensures Places(attempts, index)
      ensures ok ==>
                index == IndexOf(attempts) && index.Keys == IDSet(attempts)
                && historical == HistoricalIds(snapshot, |attempts|)
                && (bounded <==> AllBound(snapshot))
    {
      hide Consistent, AllBound;
      ok, index, historical, bounded := ValidateSnapshot(snapshot);
    }
  }

  lemma NoScanRows(s: Snapshot, index: map<AttemptID, nat>, h: Holding, pages: seq<FW.Page<ScanRow>>)
    requires Places(h.attempts, index)
    ensures FW.Underway(pages, 0, {}) && ScanIds(FW.Rows(pages[..0])) == {}
    ensures RowsTaken(s, index, h, FW.Rows(pages[..0]), {}) == h
  {
    assert pages[0..] == pages;
  }

  lemma NoFleetRows(s: Snapshot, index: map<AttemptID, nat>, h: Holding, a: AttemptReceipt, pages: seq<FleetPage>)
    requires Places(h.attempts, index)
    ensures FW.Underway(AsPages(pages), 0, {}) && FleetsRead(pages[..0]) == []
    ensures FleetsTaken(s, index, h, a, [], false) == h
  {
    assert AsPages(pages)[0..] == AsPages(pages);
  }

  lemma {:induction false} FleetsTakenJoin(s: Snapshot, index: map<AttemptID, nat>, h: Holding, a: AttemptReceipt,
                                           x: seq<FleetRow>, y: seq<FleetRow>, seen: bool)
    requires Places(h.attempts, index)
    ensures FleetsTaken(s, index, h, a, x + y, seen)
            == FleetsTaken(s, index, FleetsTaken(s, index, h, a, x, seen), a, y, seen || x != [])
  {
    hide GroupsTaken, Noted, Places;
    if y == [] {
      assert x + y == x;
    } else {
      FleetsTakenJoin(s, index, h, a, x, y[..|y| - 1], seen);
      assert (x + y)[..|x + y| - 1] == x + y[..|y| - 1];
    }
  }

  lemma InspectedStep(s: Snapshot, index: map<AttemptID, nat>, historical: set<string>, h: Holding, ids: seq<string>,
                      n: nat, answers: map<string, Inspection>)
    requires n < |ids| && Places(h.attempts, index)
    ensures var id, all := ids[n], AllInspected(s, index, historical, h, ids[n..], answers);
            if id !in answers then all == (h, true)
            else if !Named(h.workers, index, id)
                      then all == AllInspected(s, index, historical, h, ids[n + 1..], answers)
            else
              var g := OneInspected(s, index, h, id, index[h.workers[id].attempt.value], id in historical, answers[id]);
              all == if answers[id].cancelled then (g, true)
                     else AllInspected(s, index, historical, g, ids[n + 1..], answers)
  {
    hide OneInspected;
    assert ids[n..][0] == ids[n] && ids[n..][1..] == ids[n + 1..];
  }

  lemma InspectedEnd(s: Snapshot, index: map<AttemptID, nat>, historical: set<string>, h: Holding, ids: seq<string>,
                     answers: map<string, Inspection>)
    requires Places(h.attempts, index)
    ensures AllInspected(s, index, historical, h, ids[|ids|..], answers) == (h, false)
  {
  }

  lemma {:induction false} RowsTakenJoin(s: Snapshot, index: map<AttemptID, nat>, h: Holding, a: seq<ScanRow>,
                                         b: seq<ScanRow>, seen: set<string>)
    requires Places(h.attempts, index)
    ensures ScanIds(a + b) == ScanIds(a) + ScanIds(b)
    ensures RowsTaken(s, index, h, a + b, seen)
            == RowsTaken(s, index, RowsTaken(s, index, h, a, seen), b, seen + ScanIds(a))
  {
    hide Taken, Noted, Places;
    if b == [] {
      assert a + b == a;
    } else {
      var init := b[..|b| - 1];
      RowsTakenJoin(s, index, h, a, init, seen);
      assert (a + b)[..|a + b| - 1] == a + init;
      assert seen + ScanIds(a + init) == seen + ScanIds(a) + ScanIds(init);
    }
  }

  /** Every indexed identity is that of the attempt at its place. */
  ghost predicate Places(attempts: seq<AttemptReceipt>, index: map<AttemptID, nat>) {
    forall id | id in index :: index[id] < |attempts| && attempts[index[id]].id == id
  }

  ghost predicate Indexed(attempts: seq<AttemptReceipt>, n: nat, index: map<AttemptID, nat>) {
    n <= |attempts| && index.Keys == IDSet(attempts[..n]) && Places(attempts, index)
  }

  /** The place of each attempt of a list. */
  ghost function IndexOf(attempts: seq<AttemptReceipt>): map<AttemptID, nat> {
    if attempts == [] then map[]
    else IndexOf(attempts[..|attempts| - 1])[attempts[|attempts| - 1].id := |attempts| - 1]
  }

  lemma IndexedStep(attempts: seq<AttemptReceipt>, n: nat, index: map<AttemptID, nat>)
    requires n < |attempts| && Indexed(attempts, n, index)
    ensures Indexed(attempts, n + 1, index[attempts[n].id := n]) && Places(attempts, index[attempts[n].id := n])
  {
    assert attempts[..n + 1] == attempts[..n] + [attempts[n]];
  }

  lemma IndexedAll(attempts: seq<AttemptReceipt>, index: map<AttemptID, nat>)
    requires Indexed(attempts, |attempts|, index)
    ensures index.Keys == IDSet(attempts) && Places(attempts, index)
  {
    assert attempts[..|attempts|] == attempts;
  }

  lemma PlacesNone(attempts: seq<AttemptReceipt>)
    ensures Places(attempts, map[]) && Indexed(attempts, 0, map[])
  {
  }

  method ValidateSnapshot(s: Snapshot)
    returns (ok: bool, index: map<AttemptID, nat>, historical: set<string>, bounded: bool)
    ensures ok == Consistent(s)
    ensures Places(s.receipt.attempts, index)
    ensures ok ==>
              index == IndexOf(s.receipt.attempts) && index.Keys == IDSet(s.receipt.attempts)
              && historical == HistoricalIds(s, |s.receipt.attempts|)
              && (bounded <==> AllBound(s))
  {
    hide ValidReceipt, SharedAttempt, SharedBound, Indexed, Places, IDSet;
    var attempts := s.receipt.attempts;
    index, historical, bounded := map[], {}, true;
    PlacesNone(attempts);
    var valid := Receipt.Validate(s.receipt);
    if !valid || |s.prepared| != |attempts| {
      return false, index, historical, bounded;
    }
    for n := 0 to |attempts|
      invariant index == IndexOf(attempts[..n])
      invariant Indexed(attempts, n, index) && Places(attempts, index) && historical == HistoricalIds(s, n)
      invariant forall k | 0 <= k < n :: SharedAttempt(s, k)
      invariant bounded <==> forall k | 0 <= k < n :: SharedBound(s, k) == Some(attempts[k])
    {
      IndexedStep(attempts, n, index);
      assert attempts[..n + 1][..n] == attempts[..n];
      index := index[attempts[n].id := n];
      var fits, bound := CheckAttempt(s, n);
      if !fits {
        return false, index, historical, bounded;
      }
      SharedOrDoubtful(s, n);
      match bound
      case Some(a) => historical := historical + Elems(a.instances);
      case None => bounded := false;
    }
    IndexedAll(attempts, index);
    assert attempts[..|attempts|] == attempts;
    ok := s.claims.Keys <= index.Keys && s.responses.Keys <= index.Keys;
  }

  /** The body of that loop: one attempt against its shared records. */
  method CheckAttempt(s: Snapshot, n: nat) returns (ok: bool, bound: Option<AttemptReceipt>)
    requires n < |s.receipt.attempts|
    ensures ok <==> SharedAttempt(s, n)
    ensures ok ==> bound == SharedBound(s, n)
  {
    hide ValidPrepared, ValidResponse;
    var a, prior := s.receipt.attempts[n], s.receipt.(attempts := s.receipt.attempts[..n]);
    if a.id !in s.prepared || !ValidPrepared(prior, s.prepared[a.id]) {
      return false, None;
    }
    var claimed, responded := a.id in s.claims, a.id in s.responses;
    if claimed && s.claims[a.id] != ExpectedClaim(s.prepared[a.id]) {
      return false, None;
    }
    if responded && (!claimed || !ValidResponse(prior, s.prepared[a.id], s.responses[a.id])) {
      return false, None;
    }
    if responded && (s.responses[a.id].attempt.state == Complete || s.responses[a.id].attempt.state == Rejected) {
      return a == s.responses[a.id].attempt, Some(s.responses[a.id].attempt);
    }
    return a.state != Complete && a.state != Rejected && (claimed || a.state == Prepared), None;
  }

  lemma SharedOrDoubtful(s: Snapshot, n: nat)
    requires n < |s.receipt.attempts| && SharedAttempt(s, n)
    ensures SharedBound(s, n).Some? ==> SharedBound(s, n) == Some(s.receipt.attempts[n])
  {
    hide ValidPrepared, ValidResponse, SharedBound;
  }

  /** Identities fixed by shared terminal responses. */
  ghost function HistoricalIds(s: Snapshot, n: nat): set<string>
    requires n <= |s.receipt.attempts|
  {
    if n == 0 then {}
    else HistoricalIds(s, n - 1)
         + (if SharedBound(s, n - 1).Some? then Elems(SharedBound(s, n - 1).value.instances) else {})
  }

  ghost predicate Keyed(workers: map<string, Worker>) {
    forall id | id in workers :: workers[id].id == id
  }

  ghost function Listed(listed: seq<Worker>, start: map<string, Worker>): map<string, Worker> {
    if listed == [] then start
    else Listed(listed[..|listed| - 1], start)[listed[|listed| - 1].id := listed[|listed| - 1]]
  }

  ghost function Bare(plan: LaunchPlan, attempt: AttemptID, ids: seq<string>, start: map<string, Worker>)
    : map<string, Worker> {
    if ids == [] then start
    else
      var m, id := Bare(plan, attempt, ids[..|ids| - 1], start), ids[|ids| - 1];
      if id in m then m else m[id := FleetWorker(plan, attempt, id, NO_CHOICE)]
  }

  /** The entries for the first `n` attempts of a snapshot. */
  ghost function Entries(s: Snapshot, n: nat): map<string, Worker>
    requires n <= |s.receipt.attempts|
  {
    if n == 0 then map[]
    else
      var a := s.receipt.attempts[n - 1];
      Bare(s.receipt.plan, a.id, a.instances,
           Listed(if a.id in s.responses then s.responses[a.id].workers else [], Entries(s, n - 1)))
  }

  method ListWorkers(listed: seq<Worker>, start: map<string, Worker>) returns (workers: map<string, Worker>)
    requires Keyed(start)
    ensures workers == Listed(listed, start) && Keyed(workers) && workers.Keys == start.Keys + FW.WorkerIds(listed)
  {
    workers := start;
    for k := 0 to |listed|
      invariant workers == Listed(listed[..k], start)
      invariant Keyed(workers) && workers.Keys == start.Keys + FW.WorkerIds(listed[..k])
    {
      assert listed[..k + 1] == listed[..k] + [listed[k]] && listed[..k + 1][..k] == listed[..k];
      workers := workers[listed[k].id := listed[k]];
    }
    assert listed[..|listed|] == listed;
  }

  /** The reported workers of one attempt take their entries; identities without one get a bare entry. */
  method AttemptWorkers(plan: LaunchPlan, a: AttemptReceipt, listed: seq<Worker>, start: map<string, Worker>)
    returns (workers: map<string, Worker>)
    requires Keyed(start)
    ensures workers == Bare(plan, a.id, a.instances, Listed(listed, start))
    ensures Keyed(workers) && workers.Keys == start.Keys + FW.WorkerIds(listed) + Elems(a.instances)
  {
    hide Listed, FW.WorkerIds;
    workers := ListWorkers(listed, start);
    ghost var first := workers;
    for k := 0 to |a.instances|
      invariant workers == Bare(plan, a.id, a.instances[..k], first)
      invariant Keyed(workers) && workers.Keys == first.Keys + Elems(a.instances[..k])
    {
      var id := a.instances[k];
      assert a.instances[..k + 1] == a.instances[..k] + [id] && a.instances[..k + 1][..k] == a.instances[..k];
      if id !in workers {
        workers := workers[id := FleetWorker(plan, a.id, id, NO_CHOICE)];
      }
    }
    assert a.instances[..|a.instances|] == a.instances;
  }

  /** `snapshotWorkers`: one entry for every identity of the shared responses and attempts. */
  method SnapshotWorkers(s: Snapshot) returns (workers: map<string, Worker>)
    ensures workers == Entries(s, |s.receipt.attempts|)
    ensures Keyed(workers) && workers.Keys == SnapshotIds(s, |s.receipt.attempts|)
  {
    workers := map[];
    for n := 0 to |s.receipt.attempts|
      invariant workers == Entries(s, n) && Keyed(workers) && workers.Keys == SnapshotIds(s, n)
    {
      var a := s.receipt.attempts[n];
      workers := AttemptWorkers(s.receipt.plan, a, if a.id in s.responses then s.responses[a.id].workers else [],
                                workers);
    }
  }

  ghost function SnapshotIds(s: Snapshot, n: nat): set<string>
    requires n <= |s.receipt.attempts|
  {
    if n == 0 then {}
    else
      var a := s.receipt.attempts[n - 1];
      SnapshotIds(s, n - 1)
      + FW.WorkerIds(if a.id in s.responses then s.responses[a.id].workers else []) + Elems(a.instances)
  }

  /** What the verifier gets to see of the answers: the rows at the original worker's end are kept from it, and its
      absence is an empty answer. */
  method ShowPages(original: bool, id: string, pages: seq<ExactPage>) returns (shown: seq<FW.Page<FW.InstanceRow>>)
    ensures shown == AllShown(original, id, pages)
  {
    shown := [];
    for n := 0 to |pages|
      invariant |shown| == n && forall k | 0 <= k < n :: shown[k] == Shown(original, id, pages[k])
    {
      var p := pages[n];
      if p.answered {
        var rows := ShowRows(original, id, p.rows);
        shown := shown + [FW.Page(rows, p.error.Some?, p.next)];
      } else {
        shown := shown + [FW.Page([], !original || p.error != Some(NoSuchInstance), "")];
      }
    }
  }

  method ShowRows(original: bool, id: string, rows: seq<ExactRow>) returns (kept: seq<FW.InstanceRow>)
    ensures kept == KeptRows(original, id, rows)
  {
    kept := [];
    for n := 0 to |rows|
      invariant kept == KeptRows(original, id, rows[..n])
    {
      assert rows[..n + 1][..n] == rows[..n];
      if !original || rows[n].row.id != id || !rows[n].terminal {
        kept := kept + [rows[n].row];
      }
    }
    assert rows[..|rows|] == rows;
  }

  /** The verified form of one known worker, with every mapping known before. */
  method InspectOne(plan: LaunchPlan, a: AttemptReceipt, known: Worker, original: bool, answer: Inspection,
                    shown: seq<FW.Page<FW.InstanceRow>>)
    returns (worker: Worker, error: Option<FW.InspectionError>, read: nat)
    requires shown == AllShown(original, known.id, answer.instances)
    ensures (worker, error, read) == Verdict(plan, a, known, original, answer)
    ensures worker.id == known.id && worker.attempt == known.attempt && read <= |answer.instances|
    ensures FW.Mappings(known.volumes) <= FW.Mappings(worker.volumes)
    ensures error.None? ==> worker.status == Allocated
    ensures worker.status != Historical
  {
    hide ValidInstanceID, FW.SortedByID, FW.KeepsRows, FW.Rows, FW.RowIds, FW.Mappings, FW.LastSight, FW.StatusOf,
         FW.InspectionFailure, FW.InstancePages, FW.AllBlank, AllShown, Shown;
    var found;
    found, error, read := FW.VerifyFleetWorkers(plan, a.(instances := [known.id]), [known], shown, answer.volumes);
    OneResult(found, known, known.id);
    worker := found[0];
    assert known.id in FW.WorkerIds([known]);
  }

  lemma OneResult(found: seq<Worker>, known: Worker, id: string)
    requires FW.SortedByID(found) && FW.WorkerIds(found) == FW.WorkerIds([known]) + Elems([id]) && known.id == id
    ensures |found| == 1 && found[0].id == id && found[0] in found
  {
    assert FW.WorkerIds(found) == {id};
    forall r | r in found
      ensures r.id == id
    {
      assert r.id in FW.WorkerIds(found);
    }
    if |found| > 1 {
      assert found[0] in found && found[1] in found;
      BeforeTotal(found[0].id, found[1].id);
    }
    assert id in FW.WorkerIds(found);
  }

  function PagesOf(fleets: map<AttemptID, seq<FleetPage>>, id: AttemptID): seq<FleetPage> {
    if id in fleets then fleets[id] else []
  }

  /** Every identity in the first `read` pages about an attempt's Fleet is held. */
  ghost predicate FleetRetained(workers: map<string, Worker>, attempts: seq<AttemptReceipt>, index: map<AttemptID,
                                nat>, tag: AttemptID,
                                fleets: map<AttemptID, seq<FleetPage>>, read: nat) {
    read <= |PagesOf(fleets, tag)|
    && forall f | f in FleetsRead(PagesOf(fleets, tag)[..read]) :: forall g | g in f.groups ::
         GroupRetained(workers, attempts, index, tag, g)
  }

  lemma FleetReadRetained(workers: map<string, Worker>, attempts: seq<AttemptReceipt>, index: map<AttemptID, nat>,
                          tag: AttemptID,
                          fleets: map<AttemptID, seq<FleetPage>>, read: nat)
    requires read <= |PagesOf(fleets, tag)|
    requires read > 0 ==>
               forall f | f in FleetsRead(PagesOf(fleets, tag)[..read]) :: forall g | g in f.groups ::
                 GroupRetained(workers, attempts, index, tag, g)
    ensures FleetRetained(workers, attempts, index, tag, fleets, read)
  {
  }

  lemma FleetStaysRetained(w: map<string, Worker>, x: map<string, Worker>, a: seq<AttemptReceipt>,
                           b: seq<AttemptReceipt>,
                           index: map<AttemptID, nat>, tag: AttemptID, fleets: map<AttemptID, seq<FleetPage>>,
                           read: nat)
    requires KeepsWorkers(w, x) && KeepsAttempts(a, b) && FleetRetained(w, a, index, tag, fleets, read)
    ensures FleetRetained(x, b, index, tag, fleets, read)
  {
    hide KeepsWorkers, KeepsAttempts, GroupRetained;
    GroupsStayRetained(w, x, a, b, index, tag);
  }

  ghost function FleetsRead(pages: seq<FleetPage>): seq<FleetRow> {
    if pages == [] then [] else FleetsRead(pages[..|pages| - 1]) + pages[|pages| - 1].fleets
  }

  ghost predicate GroupRetained(workers: map<string, Worker>, attempts: seq<AttemptReceipt>, index: map<AttemptID,
                                nat>, tag: AttemptID, g: Group) {
    forall k | 0 <= k < |g.ids| :: Retained(workers, attempts, index, Some(tag), g.ids[k], [])
  }

  lemma GroupsStayRetained(w: map<string, Worker>, x: map<string, Worker>, a: seq<AttemptReceipt>,
                           b: seq<AttemptReceipt>,
                           index: map<AttemptID, nat>, tag: AttemptID)
    requires KeepsWorkers(w, x) && KeepsAttempts(a, b)
    ensures forall g | GroupRetained(w, a, index, tag, g) :: GroupRetained(x, b, index, tag, g)
  {
    hide Retained, KeepsWorkers, KeepsAttempts;
    forall g | GroupRetained(w, a, index, tag, g)
      ensures GroupRetained(x, b, index, tag, g)
    {
      forall k | 0 <= k < |g.ids|
        ensures Retained(x, b, index, Some(tag), g.ids[k], [])
      {
        StaysRetained(w, x, a, b, index, Some(tag), g.ids[k], []);
      }
    }
  }

  lemma KeepsReflexive(a: seq<AttemptReceipt>, w: map<string, Worker>)
    ensures KeepsAttempts(a, a) && KeepsWorkers(w, w)
  {
  }

  lemma KeepsTransitive(a: seq<AttemptReceipt>, b: seq<AttemptReceipt>, c: seq<AttemptReceipt>,
                        x: map<string, Worker>, y: map<string, Worker>, z: map<string, Worker>)
    requires KeepsAttempts(a, b) && KeepsAttempts(b, c) && KeepsWorkers(x, y) && KeepsWorkers(y, z)
    ensures KeepsAttempts(a, c) && KeepsWorkers(x, z)
  {
    KeepsAttemptsTransitive(a, b, c);
    KeepsWorkersTransitive(x, y, z);
  }

  lemma RowsStayRetained(w: map<string, Worker>, x: map<string, Worker>, a: seq<AttemptReceipt>, b: seq<AttemptReceipt>,
                         index: map<AttemptID, nat>, rows: seq<ScanRow>)
    requires KeepsWorkers(w, x) && KeepsAttempts(a, b)
    requires forall row | row in rows :: Retained(w, a, index, row.tag, row.id, row.volumes)
    ensures forall row | row in rows :: Retained(x, b, index, row.tag, row.id, row.volumes)
  {
    forall row | row in rows
      ensures Retained(x, b, index, row.tag, row.id, row.volumes)
    {
      StaysRetained(w, x, a, b, index, row.tag, row.id, row.volumes);
    }
  }

  /** Every row of an exact inspection is retained. */
  ghost predicate ExactRetained(workers: map<string, Worker>, attempts: seq<AttemptReceipt>, index: map<AttemptID,
                                nat>, rows: seq<ExactRow>) {
    forall r | r in rows :: Retained(workers, attempts, index, r.tag, r.row.id, r.row.volumes)
  }

  lemma ExactStayRetained(w: map<string, Worker>, x: map<string, Worker>, a: seq<AttemptReceipt>,
                          b: seq<AttemptReceipt>,
                          index: map<AttemptID, nat>, rows: seq<ExactRow>)
    requires KeepsWorkers(w, x) && KeepsAttempts(a, b) && ExactRetained(w, a, index, rows)
    ensures ExactRetained(x, b, index, rows)
  {
    hide Retained, KeepsWorkers, KeepsAttempts;
    forall r | r in rows
      ensures Retained(x, b, index, r.tag, r.row.id, r.row.volumes)
    {
      StaysRetained(w, x, a, b, index, r.tag, r.row.id, r.row.volumes);
    }
  }

  lemma ExactJoin(workers: map<string, Worker>, attempts: seq<AttemptReceipt>, index: map<AttemptID, nat>,
                  a: seq<ExactRow>, b: seq<ExactRow>)
    requires ExactRetained(workers, attempts, index, a) && ExactRetained(workers, attempts, index, b)
    ensures ExactRetained(workers, attempts, index, a + b)
  {
    hide Retained;
  }

  lemma NothingRetained(workers: map<string, Worker>, attempts: seq<AttemptReceipt>, index: map<AttemptID, nat>)
    ensures ExactRetained(workers, attempts, index, ExactRows([]))
  {
  }

  /** Every row that the exact inspections returned is retained. */
  ghost predicate AnswersRetained(workers: map<string, Worker>, attempts: seq<AttemptReceipt>, index: map<AttemptID,
                                  nat>,
                                  answers: map<string, Inspection>, exactRead: map<string, nat>) {
    forall id | id in exactRead ::
      id in answers && exactRead[id] <= |answers[id].instances|
      && ExactRetained(workers, attempts, index, ExactRows(answers[id].instances[..exactRead[id]]))
  }

  lemma NoAnswers(workers: map<string, Worker>, attempts: seq<AttemptReceipt>, index: map<AttemptID, nat>,
                  answers: map<string, Inspection>)
    ensures AnswersRetained(workers, attempts, index, answers, map[])
  {
  }

  lemma AnswersGrow(w: map<string, Worker>, x: map<string, Worker>, a: seq<AttemptReceipt>, b: seq<AttemptReceipt>,
                    index: map<AttemptID, nat>, answers: map<string, Inspection>, exactRead: map<string, nat>,
                    id: string, read: nat)
    requires KeepsWorkers(w, x) && KeepsAttempts(a, b) && AnswersRetained(w, a, index, answers, exactRead)
    requires id in answers && read <= |answers[id].instances|
    requires ExactRetained(x, b, index, ExactRows(answers[id].instances[..read]))
    ensures AnswersRetained(x, b, index, answers, exactRead[id := read])
  {
    hide ExactRetained, KeepsWorkers, KeepsAttempts;
    forall k | k in exactRead && k != id
      ensures ExactRetained(x, b, index, ExactRows(answers[k].instances[..exactRead[k]]))
    {
      ExactStayRetained(w, x, a, b, index, ExactRows(answers[k].instances[..exactRead[k]]));
    }
  }

  /** A worker that names an attempt of the request. */
  ghost predicate Named(workers: map<string, Worker>, index: map<AttemptID, nat>, id: string) {
    id in workers && workers[id].attempt.Some? && workers[id].attempt.value in index
  }

  ghost predicate Inspected(workers: map<string, Worker>, index: map<AttemptID, nat>, exactRead: map<string, nat>) {
    forall id | Named(workers, index, id) :: id in exactRead
  }

  // ---------------------------------------------------------------- what exact inspections show

  /** What the rows of one page add to what was seen before them. */
  ghost predicate RowsSeen(original: bool, id: string, rows: seq<ExactRow>, before: Sight, after: Sight) {
    && after.seen == before.seen + RowNames(rows)
    && (after.live <==> before.live || AnyLive(original, id, rows))
    && (after.gone <==> before.gone || AnyRemoved(original, id, rows))
    && (!after.failed <==>
          !before.failed && AllMatch(original, id, rows) && NoRepeats(rows)
          && before.seen !! RowNames(rows))
  }

  lemma NoRowsSeen(original: bool, id: string, start: Sight)
    ensures RowsSeen(original, id, [], start, start)
  {
  }

  lemma OneRow(original: bool, id: string, row: ExactRow)
    ensures RowNames([row]) == {row.row.id} && NoRepeats([row])
    ensures AnyLive(original, id, [row]) <==> !Removed(original, id, row)
    ensures AnyRemoved(original, id, [row]) <==> Removed(original, id, row)
    ensures AllMatch(original, id, [row]) <==> (Removed(original, id, row) ==> row.matches)
  {
    assert row in [row];
  }

  lemma OneRowSeen(original: bool, id: string, rows: seq<ExactRow>, row: ExactRow, start: Sight, before: Sight,
                   after: Sight)
    requires RowsSeen(original, id, rows, start, before)
    requires after.seen == before.seen + {row.row.id} && (after.live <==> before.live || !Removed(original, id, row))
    requires after.gone <==> before.gone || Removed(original, id, row)
    requires after.failed <==>
               before.failed || row.row.id in before.seen
               || (Removed(original, id, row) && !row.matches)
    ensures RowsSeen(original, id, rows + [row], start, after)
  {
    hide Removed, AnyLive, AnyRemoved, AllMatch, NoRepeats, RowNames;
    RowsJoin(rows, [row]);
    RowsTogether(original, id, rows, [row]);
    OneRow(original, id, row);
  }

  lemma NothingSeen(original: bool, id: string)
    ensures Sees(original, id, [], Sight(false, false, false, {}))
  {
  }

  lemma AnsweredSeen(original: bool, id: string, pages: seq<ExactPage>, page: ExactPage, before: Sight, taken: Sight,
                     after: Sight)
    requires Sees(original, id, pages, before) && page.answered && RowsSeen(original, id, page.rows, before, taken)
    requires after == taken.(gone := taken.gone || page.rows == [], failed := taken.failed || page.error.Some?)
    ensures Sees(original, id, pages + [page], after)
  {
    hide Removed, AnyLive, AnyRemoved, AllMatch, NoRepeats, RowNames;
    var all, rows := pages + [page], ExactRows(pages) + page.rows;
    assert all[..|pages|] == pages && ExactRows(all) == rows;
    RowsJoin(ExactRows(pages), page.rows);
    RowsTogether(original, id, ExactRows(pages), page.rows);
    PagesJoin(original, id, pages, page);
  }

  lemma PagesJoin(original: bool, id: string, pages: seq<ExactPage>, page: ExactPage)
    ensures (exists p :: p in pages + [page] && GoneIn(original, id, p)) <==>
              (exists p :: p in pages && GoneIn(original, id, p)) || GoneIn(original, id, page)
    ensures (forall p | p in pages + [page] :: FineRead(original, p)) <==>
              (forall p | p in pages :: FineRead(original, p)) && FineRead(original, page)
  {
    hide GoneIn, FineRead;
    var all := pages + [page];
    assert page in all && forall p | p in pages :: p in all;
  }

  lemma RowsTogether(original: bool, id: string, a: seq<ExactRow>, b: seq<ExactRow>)
    ensures AnyLive(original, id, a + b) <==> AnyLive(original, id, a) || AnyLive(original, id, b)
    ensures AnyRemoved(original, id, a + b) <==> AnyRemoved(original, id, a) || AnyRemoved(original, id, b)
    ensures AllMatch(original, id, a + b) <==> AllMatch(original, id, a) && AllMatch(original, id, b)
  {
    hide Removed;
    assert (forall r | r in a :: r in a + b) && (forall r | r in b :: r in a + b);
  }

  lemma RowsJoin(a: seq<ExactRow>, b: seq<ExactRow>)
    ensures RowNames(a + b) == RowNames(a) + RowNames(b)
    ensures NoRepeats(a + b) <==> NoRepeats(a) && NoRepeats(b) && RowNames(a) !! RowNames(b)
  {
    var all := a + b;
    forall r | r in b && r.row.id in RowNames(a)
      ensures exists i, j :: 0 <= i < j < |all| && all[i].row.id == all[j].row.id
    {
      var i :| 0 <= i < |a| && a[i].row.id == r.row.id;
      var j :| 0 <= j < |b| && b[j] == r;
      assert all[i].row.id == all[|a| + j].row.id;
    }
    forall i, j | 0 <= i < j < |b| && b[i].row.id == b[j].row.id
      ensures all[|a| + i].row.id == all[|a| + j].row.id
    {
    }
    forall i, j | 0 <= i < j < |a| && a[i].row.id == a[j].row.id
      ensures all[i].row.id == all[j].row.id
    {
    }
    forall i, j | 0 <= i < |a| <= j < |all| && all[i].row.id == all[j].row.id
      ensures all[j] in b && all[j].row.id in RowNames(a)
    {
      assert a[i] in a;
    }
    assert forall i, j | |a| <= i < j < |all| :: all[i] == b[i - |a|] && all[j] == b[j - |a|];
  }

  lemma UnansweredSeen(original: bool, id: string, pages: seq<ExactPage>, page: ExactPage, before: Sight, after: Sight)
    requires Sees(original, id, pages, before) && !page.answered
    requires after == if Vanished(original, page) then before.(gone := true) else before.(failed := true)
    ensures Sees(original, id, pages + [page], after)
  {
    hide Removed, AnyLive, AnyRemoved, AllMatch, NoRepeats, RowNames;
    var all := pages + [page];
    assert all[..|pages|] == pages && ExactRows(all) == ExactRows(pages);
    PagesJoin(original, id, pages, page);
  }

  lemma SeenDeparted(id: string, pages: seq<ExactPage>, s: Sight)
    requires Sees(true, id, pages, s) && s.gone && !s.live && !s.failed
    ensures Departed(id, pages)
  {
    hide Removed, Untroubled, GoneIn, RowNames;
  }

  ghost predicate HeldBy(attempts: seq<AttemptReceipt>, index: map<AttemptID, nat>, tag: AttemptID, id: string) {
    tag in index && index[tag] < |attempts| && id in attempts[index[tag]].instances
  }

  lemma AttemptsReflexive(a: seq<AttemptReceipt>)
    ensures KeepsAttempts(a, a)
  {
  }

  lemma HeldUpdate(first: seq<AttemptReceipt>, attempts: seq<AttemptReceipt>, n: nat, id: string, ids: seq<string>)
    requires KeepsAttempts(first, attempts) && ValidIds(attempts) && n < |attempts| && ValidInstanceID(id)
    requires Elems(ids) == set x | x in attempts[n].instances + [id] && ValidInstanceID(x)
    ensures var b := attempts[n := attempts[n].(state := Unknown, instances := ids)];
            KeepsAttempts(attempts, b) && KeepsAttempts(first, b) && ValidIds(b) && id in ids
  {
    hide ValidInstanceID;
    var b := attempts[n := attempts[n].(state := Unknown, instances := ids)];
    assert attempts[n] in attempts;
    assert id in Elems(ids);
    assert forall x | x in ids :: x in Elems(ids);
    KeepsAttemptsTransitive(first, attempts, b);
  }

  lemma BoundIsTerminal(s: Snapshot, n: nat)
    requires AllBound(s) && n < |s.receipt.attempts|
    ensures s.receipt.attempts[n].Terminal()
  {
    assert SharedBound(s, n) == Some(s.receipt.attempts[n]);
  }

  // ---------------------------------------------------------------- one observation

  datatype Inventory = Inventory(scan: seq<FW.Page<ScanRow>>, fleets: map<AttemptID, seq<FleetPage>>,
                                 exact: map<string, Inspection>)

  datatype ReconcileError = LedgerCorrupt | ReconciliationUnavailable | Cancelled

  datatype LaunchObservation = LaunchObservation(attempts: seq<AttemptReceipt>, workers: map<string, Worker>,
                                                 errors: seq<Problem>,
                                                 bounded: bool, historical: set<string>)

  lemma FitsIds(plan: LaunchPlan, prior: seq<AttemptReceipt>, a: AttemptReceipt)
    requires Fits(plan, prior, a) && ValidIds(prior)
    ensures ValidIds(prior + [a])
  {
    hide ValidInstanceID, ValidFleetID;
  }

  lemma ValidReceiptIds(r: BatchReceipt)
    requires ValidReceipt(r)
    ensures ValidIds(r.attempts)
  {
    hide Fits, TerminalChain, ValidIds, HeaderValid;
    var init, last := r.attempts[..|r.attempts| - 1], r.attempts[|r.attempts| - 1];
    ChainIds(r.plan, init);
    FitsIds(r.plan, init, last);
    assert r.attempts == init + [last];
  }

  lemma {:induction false} ChainIds(plan: LaunchPlan, attempts: seq<AttemptReceipt>)
    requires TerminalChain(plan, attempts)
    ensures ValidIds(attempts)
  {
    hide ValidInstanceID, Fits;
    if attempts != [] {
      var init, last := attempts[..|attempts| - 1], attempts[|attempts| - 1];
      ChainIds(plan, init);
      FitsIds(plan, init, last);
      assert attempts == init + [last];
    }
  }

  /** A receipt whose every attempt is bounded by a shared response is a bounded chain. */
  lemma BoundChain(s: Snapshot)
    requires Consistent(s) && AllBound(s)
    ensures TerminalChain(s.receipt.plan, s.receipt.attempts)
  {
    hide SharedAttempt, Fits;
    var n := |s.receipt.attempts| - 1;
    BoundIsTerminal(s, n);
    ChainAppend(s.receipt.plan, s.receipt.attempts[..n], s.receipt.attempts[n]);
    assert s.receipt.attempts == s.receipt.attempts[..n] + [s.receipt.attempts[n]];
  }

  /** Nothing of the snapshot is missing from an observation. */
  ghost predicate KeepsSnapshot(s: Snapshot, o: LaunchObservation) {
    && KeepsAttempts(s.receipt.attempts, o.attempts)
    && SnapshotIds(s, |s.receipt.attempts|) <= o.workers.Keys && Keyed(o.workers)
  }

  /** What was read of EC2 in one observation: pages of the scan, of each attempt's Fleet, and of each exact
      inspection. */
  datatype Reads = Reads(scanned: nat, fleetPages: seq<nat>, exact: map<string, nat>)

  /** Nothing that the read pages reported is missing either. */
  ghost predicate KeepsReports(s: Snapshot, o: LaunchObservation, inventory: Inventory, taken: Reads) {
    exists index: map<AttemptID, nat> ::
      && Places(o.attempts, index) && index.Keys == IDSet(s.receipt.attempts)
      && ReportsKept(s, o.workers, o.attempts, index, inventory, taken)
  }

  ghost predicate ReportsKept(s: Snapshot, workers: map<string, Worker>, attempts: seq<AttemptReceipt>,
                              index: map<AttemptID, nat>,
                              inventory: Inventory, taken: Reads) {
    && taken.scanned <= |inventory.scan| && |taken.fleetPages| == |s.receipt.attempts|
    && (forall row | row in FW.Rows(inventory.scan[..taken.scanned]) ::
         Retained(workers, attempts, index, row.tag, row.id, row.volumes))
    && (forall n | 0 <= n < |taken.fleetPages| ::
          FleetRetained(workers, attempts, index, s.receipt.attempts[n].id, inventory.fleets, taken.fleetPages[n]))
    && AnswersRetained(workers, attempts, index, inventory.exact, taken.exact)
  }

  /** What the answers to one observation make of it, in the order in which they are asked for; once the caller gives
      up, nothing more is. */
  ghost function AllTaken(s: Snapshot, index: map<AttemptID, nat>, historical: set<string>, h: Holding,
                          inventory: Inventory): (Holding, bool)
    requires Places(h.attempts, index)
  {
    var scanned := ScanTaken(s, index, h, inventory.scan);
    if FW.StopOf(inventory.scan, {}) == FW.GaveUp then (scanned, true)
    else
      var fleets := AllFleetsTaken(s, index, scanned, inventory.fleets, |s.receipt.attempts|);
      if fleets.1 then fleets
      else AllInspected(s, index, historical, fleets.0, SortedOf(fleets.0.workers.Keys), inventory.exact)
  }

  /** All EC2 reads of one observation. */
  method Observe(r: LaunchReconciler, inventory: Inventory) returns (cancelled: bool, taken: Reads)
    requires r.Shape() && r.Sealed()
    modifies r`bounded, r`errors, r`workers, r`attempts
    ensures (r.State(), cancelled) == AllTaken(r.snapshot, r.index, r.historical, old(r.State()), inventory)
    ensures r.Grown(old(r.bounded), old(r.attempts), old(r.workers))
    ensures ReportsKept(r.snapshot, r.workers, r.attempts, r.index, inventory, taken)
    ensures !cancelled ==> Inspected(old(r.workers), r.index, taken.exact)
  {
    hide ValidInstanceID, AllBound, KeepsAttempts, ValidIds, KeepsWorkers, Retained, FleetRetained, Keyed, Places,
         AnswersRetained, Inspected, ScanTaken, AllFleetsTaken, AllInspected, FW.StopOf, FW.Extent;
    r.InPlace();
    ghost var a0, w0 := r.attempts, r.workers;
    var scanned, pagesRead := 0, [];
    scanned, cancelled := r.Scan(inventory.scan);
    r.InPlace();
    if cancelled {
      NoFleetsRead(r.snapshot, r.workers, r.attempts, r.index, inventory);
      taken := Reads(scanned, seq(|r.snapshot.receipt.attempts|, _ => 0), map[]);
      return;
    }
    ghost var a1, w1 := r.attempts, r.workers;
    pagesRead, cancelled := r.InspectFleets(inventory.fleets);
    r.InPlace();
    KeepsTransitive(a0, a1, r.attempts, w0, w1, r.workers);
    RowsStayRetained(w1, r.workers, a1, r.attempts, r.index, FW.Rows(inventory.scan[..scanned]));
    taken := Reads(scanned, pagesRead, map[]);
    NoAnswers(r.workers, r.attempts, r.index, inventory.exact);
    if cancelled {
      return;
    }
    ghost var a2, w2 := r.attempts, r.workers;
    var exactRead;
    cancelled, exactRead := r.Verify(inventory.exact);
    if !cancelled {
      InspectedBefore(w0, w2, r.index, exactRead);
    }
    KeepsTransitive(a0, a2, r.attempts, w0, w2, r.workers);
    ReadsStayKept(r.snapshot, w2, r.workers, a2, r.attempts, r.index, inventory, taken);
    taken := taken.(exact := exactRead);
  }

  lemma NoFleetsRead(s: Snapshot, workers: map<string, Worker>, attempts: seq<AttemptReceipt>,
                     index: map<AttemptID, nat>, inventory: Inventory)
    ensures forall n | 0 <= n < |s.receipt.attempts| ::
              FleetRetained(workers, attempts, index, s.receipt.attempts[n].id, inventory.fleets, 0)
    ensures AnswersRetained(workers, attempts, index, inventory.exact, map[])
  {
    hide GroupRetained;
  }

  /** What was retained of the inventory and of the Fleets stays retained. */
  lemma ReadsStayKept(s: Snapshot, w: map<string, Worker>, x: map<string, Worker>, a: seq<AttemptReceipt>,
                      b: seq<AttemptReceipt>, index: map<AttemptID, nat>, inventory: Inventory, taken: Reads)
    requires KeepsWorkers(w, x) && KeepsAttempts(a, b) && ReportsKept(s, w, a, index, inventory, taken)
    ensures forall row | row in FW.Rows(inventory.scan[..taken.scanned]) ::
              Retained(x, b, index, row.tag, row.id, row.volumes)
    ensures forall n | 0 <= n < |taken.fleetPages| ::
              FleetRetained(x, b, index, s.receipt.attempts[n].id, inventory.fleets, taken.fleetPages[n])
  {
    hide KeepsAttempts, KeepsWorkers, Retained, FleetRetained, AnswersRetained;
    RowsStayRetained(w, x, a, b, index, FW.Rows(inventory.scan[..taken.scanned]));
    forall n | 0 <= n < |taken.fleetPages|
      ensures FleetRetained(x, b, index, s.receipt.attempts[n].id, inventory.fleets, taken.fleetPages[n])
    {
      FleetStaysRetained(w, x, a, b, index, s.receipt.attempts[n].id, inventory.fleets, taken.fleetPages[n]);
    }
  }

  lemma InspectedBefore(w: map<string, Worker>, x: map<string, Worker>, index: map<AttemptID, nat>,
                        exactRead: map<string, nat>)
    requires KeepsWorkers(w, x) && Inspected(x, index, exactRead)
    ensures Inspected(w, index, exactRead)
  {
    hide FW.Mappings;
    forall id | Named(w, index, id)
      ensures id in exactRead
    {
      assert Named(x, index, id);
    }
  }

  /** The observation is what the answers make of the snapshot's own attempts and workers. */
  ghost predicate Concludes(s: Snapshot, inventory: Option<Inventory>, o: LaunchObservation,
                            error: Option<ReconcileError>) {
    hide Consistent, AllBound, Noted, Places, AllTaken;
    var attempts := s.receipt.attempts;
    var first := Holding(attempts, AllBound(s), [], Entries(s, |attempts|));
    if !Consistent(s) then
      o == LaunchObservation(attempts, first.workers, [], false, o.historical) && error == Some(LedgerCorrupt)
    else
      && Places(attempts, IndexOf(attempts))
      && var (held, cut) :=
           match inventory
           case None => (Noted(first, "", LaunchInventoryUnavailable), false)
           case Some(i) => AllTaken(s, IndexOf(attempts), HistoricalIds(s, |attempts|), first, i);
         && o == LaunchObservation(held.attempts, held.workers, held.errors, held.bounded && !cut,
                                   HistoricalIds(s, |attempts|))
         && error == if cut then Some(Cancelled)
                     else if held.errors != [] then Some(ReconciliationUnavailable) else None
  }

  /** `ReconcileLaunch`. Whatever EC2 answers, the observation holds every identity of the snapshot and every valid
      identity and mapping of the pages read, be they of the scan,
      of a Fleet or of an exact inspection; unless it is cut
      short, every worker of the snapshot that names an attempt was inspected. It still counts as bounded exactly when
      shared responses bound every attempt and nothing contradicted them, and then its attempts are exactly the shared
      ones. */
  method ReconcileLaunch(s: Snapshot, inventory: Option<Inventory>)
    returns (o: LaunchObservation, error: Option<ReconcileError>, taken: Reads)
    ensures error == Some(LedgerCorrupt) <==> !Consistent(s)
    ensures KeepsSnapshot(s, o)
    ensures Concludes(s, inventory, o, error)
    ensures Consistent(s) && inventory.Some? ==> KeepsReports(s, o, inventory.value, taken)
    ensures Consistent(s) && inventory.Some? && error != Some(Cancelled) ==>
              forall id | id in SnapshotIds(s, |s.receipt.attempts|) && o.workers[id].attempt.Some?
                          && o.workers[id].attempt.value in IDSet(s.receipt.attempts) :: id in taken.exact
    ensures o.bounded <==> error.None? && AllBound(s)
    ensures o.bounded ==>
              o.errors == [] && o.attempts == s.receipt.attempts
              && TerminalChain(s.receipt.plan, s.receipt.attempts)
    ensures error == Some(ReconciliationUnavailable) ==> o.errors != []
    ensures Consistent(s) ==> o.historical == HistoricalIds(s, |s.receipt.attempts|)
  {
    hide ValidInstanceID, AllBound, KeepsAttempts, ValidIds, KeepsWorkers, ReportsKept, Places, Consistent,
         TerminalChain, Inspected, AllTaken, Noted, Entries, IndexOf;
    taken := Reads(0, [], map[]);
    var known := SnapshotWorkers(s);
    var r := new LaunchReconciler(s, known);
    var ok := r.Validated();
    AttemptsReflexive(s.receipt.attempts);
    if !ok {
      return LaunchObservation(r.attempts, r.workers, r.errors, false, r.historical), Some(LedgerCorrupt), taken;
    }
    ConsistentIds(s);
    KeepsReflexive(r.attempts, r.workers);
    var cancelled := false;
    if inventory.None? {
      r.AddProblem("", LaunchInventoryUnavailable);
    } else {
      cancelled, taken := Observe(r, inventory.value);
      if !cancelled {
        SnapshotInspected(known, r.workers, r.index, taken.exact);
      }
    }
    KeysKept(known, r.workers);
    o := LaunchObservation(r.attempts, r.workers, r.errors, r.bounded && !cancelled, r.historical);
    error := if cancelled then Some(Cancelled) else if r.errors != [] then Some(ReconciliationUnavailable) else None;
    if o.bounded {
      BoundChain(s);
    }
  }

  /** The attempt a worker names is the one it named from the start. */
  lemma SnapshotInspected(known: map<string, Worker>, workers: map<string, Worker>, index: map<AttemptID, nat>,
                          exactRead: map<string, nat>)
    requires KeepsWorkers(known, workers) && Inspected(known, index, exactRead)
    ensures forall id | id in known && Named(workers, index, id) :: id in exactRead
  {
    hide FW.Mappings;
    forall id | id in known && Named(workers, index, id)
      ensures id in exactRead
    {
      assert Named(known, index, id);
    }
  }

  lemma ConsistentIds(s: Snapshot)
    requires Consistent(s)
    ensures ValidIds(s.receipt.attempts)
  {
    hide SharedAttempt, ValidReceipt, ValidIds;
    ValidReceiptIds(s.receipt);
  }

  lemma KeysKept(a: map<string, Worker>, b: map<string, Worker>)
    requires KeepsWorkers(a, b)
    ensures a.Keys <= b.Keys
  {
  }
}
