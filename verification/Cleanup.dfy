/** What one cleanup run does with one instance: freeze, acknowledge, recheck, dispatch once, observe. */
module Cleanup {
  import opened Basics
  import opened Expiry

  datatype Deletion = NotObserved | Deleted | Retained | Unavailable

  /** A mapped volume; the flag is missing when deletion on termination was not verified. */
  datatype Volume = Volume(id: string, device: string, root: bool, flag: Option<bool>, deletion: Deletion)

  datatype Record = Record(resource: Resource, rootDevice: string, rootType: string, volumes: seq<Volume>,
                           badMapping: bool, conflict: bool)

  datatype Problem = Problem(resource: string, code: ProblemCode)

  datatype ProblemCode =
    | RootVolumeUnverified | RootVolumeRetained | EvidenceUnavailable | ResourceUnverified | Interrupted
    | TerminationDenied
    | TerminationProtected | TerminationUnresolved | VolumeUnresolved | PolicyProblem(reason: Reason)

  // ---------------------------------------------------------------- evidence about volumes

  ghost function Roots(vs: seq<Volume>): seq<Volume> {
    if vs == [] then [] else Roots(vs[..|vs| - 1]) + (if vs[|vs| - 1].root then [vs[|vs| - 1]] else [])
  }

  /** `rootProblem`: the loop that counts roots and keeps the last flag. */
  method RootProblem(r: Record) returns (code: Option<ProblemCode>)
    ensures code == RootIssue(r)
  {
    if r.badMapping || r.rootType != "ebs" || r.rootDevice == "" {
      return Some(RootVolumeUnverified);
    }
    var roots := 0;
    var flag: Option<bool> := None;
    for n := 0 to |r.volumes|
      invariant roots == |Roots(r.volumes[..n])|
      invariant roots > 0 ==> flag == Roots(r.volumes[..n])[roots - 1].flag
      invariant roots == 0 ==> flag.None?
    {
      assert r.volumes[..n + 1][..n] == r.volumes[..n];
      if r.volumes[n].root {
        roots, flag := roots + 1, r.volumes[n].flag;
      }
    }
    assert r.volumes[..|r.volumes|] == r.volumes;
    if roots != 1 || flag.None? {
      return Some(RootVolumeUnverified);
    }
    return if flag.value then None else Some(RootVolumeRetained);
  }

  /** The root is verified when the mappings are sound and exactly one of them is a root that goes with the instance. */
  ghost function RootIssue(r: Record): Option<ProblemCode> {
    if r.badMapping || r.rootType != "ebs" || r.rootDevice == "" || |Roots(r.volumes)| != 1
       || Roots(r.volumes)[0].flag.None?
    then Some(RootVolumeUnverified)
    else if Roots(r.volumes)[0].flag.value then None else Some(RootVolumeRetained)
  }

  /** The verified root, if there is one. */
  ghost function RootID(r: Record): Option<string> {
    if RootIssue(r).None? then Some(Roots(r.volumes)[0].id) else None
  }

  ghost predicate MappingsAbsent(r: Record, reason: Reason) {
    reason == AlreadyTerminated && !r.conflict && !r.badMapping && r.volumes == []
    && (r.rootType == "" || r.rootType == "ebs")
  }

  /** `historicalMappingsAbsent`. */
  method HistoricalMappingsAbsent(r: Record, reason: Reason) returns (absent: bool)
    ensures absent <==> MappingsAbsent(r, reason)
  {
    return reason == AlreadyTerminated && !r.conflict && !r.badMapping && r.volumes == []
           && (r.rootType == "" || r.rootType == "ebs");
  }

  ghost predicate SameMappings(a: Record, b: Record) {
    a.rootDevice == b.rootDevice && a.rootType == b.rootType && a.badMapping == b.badMapping && a.volumes == b.volumes
  }

  ghost predicate Compatible(a: string, b: string) {
    a == "" || b == "" || a == b
  }

  /** Current evidence agrees with what was captured; only a terminated instance may have lost its mappings. */
  ghost predicate ConsistentMappings(captured: Record, current: Record) {
    && !current.badMapping
    && (SameMappings(captured, current)
        || (current.resource.state.Terminated? && MappingsAbsent(current, AlreadyTerminated)
            && Compatible(current.rootType, captured.rootType) && Compatible(current.rootDevice, captured.rootDevice)))
  }

  /** `consistentMappings`. */
  method MappingsConsistent(captured: Record, current: Record) returns (consistent: bool)
    ensures consistent <==> ConsistentMappings(captured, current)
  {
    if current.badMapping {
      return false;
    }
    if captured.rootDevice == current.rootDevice && captured.rootType == current.rootType && !captured.badMapping
       && captured.volumes == current.volumes {
      return true;
    }
    var absent := HistoricalMappingsAbsent(current, AlreadyTerminated);
    return current.resource.state.Terminated? && absent
           && (current.rootType == "" || captured.rootType == "" || current.rootType == captured.rootType)
           && (current.rootDevice == "" || captured.rootDevice == "" || current.rootDevice == captured.rootDevice);
  }

  /** The volumes of the first list, and behind them in order those of the second that are new, each once. */
  ghost function MergeMappings(a: seq<Volume>, b: seq<Volume>): (r: seq<Volume>)
    ensures a <= r && (forall v | v in r :: v in a || v in b) && (forall v | v in b :: v in r)
    ensures forall i, j | 0 <= i < j < |r| && |a| <= j :: r[i] != r[j]
    decreases |b|
  {
    if b == [] then a
    else
      var init := MergeMappings(a, b[..|b| - 1]);
      if b[|b| - 1] in init then init else init + [b[|b| - 1]]
  }

  /** `mergeMappings`. */
  method Merge(a: seq<Volume>, b: seq<Volume>) returns (merged: seq<Volume>)
    ensures merged == MergeMappings(a, b)
  {
    merged := a;
    for n := 0 to |b|
      invariant merged == MergeMappings(a, b[..n])
    {
      assert b[..n + 1][..n] == b[..n];
      if b[n] !in merged {
        merged := merged + [b[n]];
      }
    }
    assert b[..|b|] == b;
  }

  // ---------------------------------------------------------------- one worker

  datatype Status = Skipped | NotRequested | WouldTerminate | TerminationDeniedStatus | TerminationUnknown
                  | TerminationRequested
                  | TerminationObserved | AlreadyGone | AlreadyGoing

  /** What an upheld selection comes to: the status, whether to go on observing, and what is wrong. */
  datatype Sequel = Sequel(status: Status, active: bool, problem: Option<ProblemCode>)

  /** Mappings that contradict the captured ones end it. An instance that has ended or is ending is observed, unless
      nothing was captured of it; a live one is for a candidate of an uncancelled run only, and its request's answer
      decides. */
  ghost function SequelOf(captured: Record, selected: Decision, current: Record, cancelled: bool, answer: Dispatch,
                          first: Status): Sequel {
    var ended := current.resource.state.Terminated?;
    if !ConsistentMappings(captured, current) then
      Sequel(if ended then AlreadyGone else first, false, Some(RootVolumeUnverified))
    else if ended && !MappingsAbsent(captured, selected.reason) then Sequel(AlreadyGone, true, None)
    else if ended then
      Sequel(AlreadyGone, false,
             if MappingsAbsent(current, AlreadyTerminated) then None else Some(RootVolumeUnverified))
    else if current.resource.state.ShuttingDown? then Sequel(AlreadyGoing, true, None)
    else if !selected.eligible then Sequel(first, false, Some(ResourceUnverified))
    else if cancelled then Sequel(first, false, Some(Interrupted))
    else
      match answer
      case Denied => Sequel(TerminationDeniedStatus, false, Some(TerminationDenied))
      case Protected => Sequel(TerminationDeniedStatus, false, Some(TerminationProtected))
      case Acknowledged => Sequel(TerminationRequested, true, None)
      case Uncertain => Sequel(TerminationUnknown, true, None)
  }

  ghost function Complaint(id: string, code: Option<ProblemCode>): seq<Problem> {
    if code.Some? then [Problem(id, code.value)] else []
  }

  /** What happened to one instance in one run, in order. */
  datatype Event =
    | Decided(acknowledged: bool)
    | PreparedEvent(acknowledged: bool)
    | Reread(current: Record, now: Clock)
    | Dispatched
    | SeenTerminated
    | Queried(volume: string, deleted: bool)

  /** The answer to an exact read: the rows returned, whether the read was complete, and the time after it. */
  datatype Exact = Exact(records: seq<Record>, complete: bool, now: Clock)

  /** `exact`: only a complete read of one single row that names the instance itself says anything about it. */
  ghost function Singular(e: Exact, id: string): Option<Record> {
    if e.complete && |e.records| == 1 && e.records[0].resource.id == id then Some(e.records[0]) else None
  }

  method ExactRow(e: Exact, id: string) returns (row: Option<Record>)
    ensures row == Singular(e, id)
  {
    if !e.complete || |e.records| != 1 || e.records[0].resource.id != id {
      return None;
    }
    return Some(e.records[0]);
  }

  datatype Dispatch = Denied | Protected | Acknowledged | Uncertain

  /** What `prepare` was told: whether the announcement was acknowledged, the exact read, whether the caller had given
      up, and the answer to a request. */
  datatype Taking = Taking(emitted: bool, exact: Exact, cancelled: bool, answer: Dispatch)

  /** What one turn of observation was told: the exact read, and whether the volume asked about is gone. */
  datatype Look = Look(exact: Exact, gone: bool)

  ghost function Dispatches(log: seq<Event>): nat {
    if log == [] then 0 else Dispatches(log[..|log| - 1]) + (if log[|log| - 1].Dispatched? then 1 else 0)
  }

  /** The evidence behind a termination: a verified root, an acknowledged announcement, and after it a fresh exact read
      that is still expired, with the deadline and mappings that were captured. */
  ghost predicate Warranted(scope: Scope, selected: Decision, captured: Record, log: seq<Event>, n: nat)
    requires n < |log|
  {
    && log[n].Dispatched? && n >= 2 && log[n - 1].Reread? && log[n - 2] == PreparedEvent(true)
    && RootIssue(captured).None? && SameMappings(captured, log[n - 1].current)
    && StillExpired(scope, selected, log[n - 1].current.resource, log[n - 1].now)
  }

  /** The evidence behind a termination that counts as seen: just before it an exact read returned the instance itself,
      terminated, in scope and with the selected deadline. */
  ghost predicate Witnessed(scope: Scope, selected: Decision, log: seq<Event>, n: nat)
    requires n < |log|
  {
    && log[n].SeenTerminated? && n >= 1 && log[n - 1].Reread?
    && EndShown(scope, selected, log[n - 1].current.resource, log[n - 1].now)
  }

  /** The observation repeats the deadline of the selection, in scope and passed. */
  ghost predicate Upheld(scope: Scope, selected: Decision, r: Resource, now: Clock) {
    && r.id == selected.id && selected.expiresAt.Some? && Due(scope, r, now)
    && Inspected(r.tags) == Usable(selected.expiresAt.value)
  }

  ghost predicate EndShown(scope: Scope, selected: Decision, r: Resource, now: Clock) {
    Upheld(scope, selected, r, now) && r.state.Terminated?
  }

  /** The events of a log that claim something have their evidence before them. */
  ghost predicate Backed(scope: Scope, selected: Decision, captured: Record, log: seq<Event>, n: nat)
    requires n < |log|
  {
    && (log[n].Dispatched? ==> Warranted(scope, selected, captured, log, n))
    && (log[n].SeenTerminated? ==> Witnessed(scope, selected, log, n))
  }

  /** Fresh evidence repeats the selection: the same live instance of the scope, the same deadline, still passed. */
  ghost predicate StillExpired(scope: Scope, selected: Decision, r: Resource, now: Clock) {
    selected.eligible && selected.reason == Expired && Upheld(scope, selected, r, now) && Live(r.state)
  }

  /** Everything that must hold for a worker to send its termination, as the run finds it. */
  ghost predicate Authorised(scope: Scope, selected: Decision, captured: Record, emitted: bool, exact: Exact,
                       cancelled: bool) {
    && selected.eligible && RootIssue(captured).None? && emitted && Singular(exact, selected.id).Some? && !cancelled
    && StillExpired(scope, selected, Singular(exact, selected.id).value.resource, exact.now)
    && ConsistentMappings(captured, Singular(exact, selected.id).value)
  }

  lemma BackedStays(scope: Scope, selected: Decision, captured: Record, log: seq<Event>, e: Event, n: nat)
    requires n < |log| && Backed(scope, selected, captured, log, n)
    ensures Backed(scope, selected, captured, log + [e], n)
  {
    hide RootIssue, SameMappings, StillExpired, EndShown;
    var all := log + [e];
    assert all[n] == log[n] && (n >= 1 ==> all[n - 1] == log[n - 1]) && (n >= 2 ==> all[n - 2] == log[n - 2]);
  }

  /** Every termination in a log is warranted, there is at most one, and every end that was seen is witnessed. */
  ghost predicate Lawful(scope: Scope, selected: Decision, captured: Record, log: seq<Event>) {
    Dispatches(log) <= 1 && forall n | 0 <= n < |log| :: Backed(scope, selected, captured, log, n)
  }

  /** A deletion is believed only after the instance was seen terminated and the volume was then found gone. */
  ghost predicate GoneAfterEnd(log: seq<Event>, volume: string) {
    exists i, j :: 0 <= i < j < |log| && log[i].SeenTerminated? && log[j] == Queried(volume, true)
  }

  ghost function Question(vs: seq<Volume>, queried: Option<nat>, gone: bool): seq<Event> {
    match queried
    case None => []
    case Some(i) => if i < |vs| then [Queried(vs[i].id, gone)] else []
  }

  /** What one turn can make known: a deletion only of the volume that was asked about and found gone, and nothing that
      was settled is opened again. */
  ghost predicate Learned(vs: seq<Volume>, ws: seq<Volume>, queried: Option<nat>, gone: bool) {
    && SameVolumes(ws, vs)
    && forall k | 0 <= k < |vs| ::
         && (ws[k].deletion.Deleted? <==> vs[k].deletion.Deleted? || (queried == Some(k) && gone))
         && (Open(ws[k]) ==> Open(vs[k])) && (vs[k].deletion.Retained? && queried != Some(k) ==> ws[k] == vs[k])
  }

  lemma RotationLearned(bad: bool, vs: seq<Volume>, ws: seq<Volume>, queried: Option<nat>, gone: bool)
    requires SameVolumes(ws, vs) && (queried.Some? ==> queried.value < |vs| && Awaits(bad, vs[queried.value]))
    requires queried.Some? ==> ws[queried.value] == if gone then vs[queried.value].(deletion := Deleted)
                                                    else vs[queried.value]
    requires forall k | 0 <= k < |vs| && queried != Some(k) :: ws[k] == vs[k] || ws[k] == Passed(vs[k])
    ensures Learned(vs, ws, queried, gone)
  {
  }

  lemma LearnedMore(vs: seq<Volume>, ws: seq<Volume>, xs: seq<Volume>, queried: Option<nat>, gone: bool)
    requires Learned(vs, ws, queried, gone) && Learned(ws, xs, None, false)
    ensures Learned(vs, xs, queried, gone)
  {
  }

  lemma ReportedThrough(a: seq<Problem>, b: seq<Problem>, c: seq<Problem>, vs: seq<Volume>, ws: seq<Volume>,
                        queried: Option<nat>, gone: bool)
    requires Reported(a, b, vs) && Reported(b, c, ws) && Learned(vs, ws, queried, gone)
    ensures Reported(a, c, vs)
  {
    assert |a| <= |b| <= |c|;
    forall j | |a| <= j < |c|
      ensures c[j] !in c[..j] && Unresolves(vs, c[j])
    {
      if j < |b| {
        assert c[j] == b[j] && c[..j] == b[..j] && b[j] !in b[..j];
      } else {
        var w :| w in ws && Open(w) && c[j] == Problem(w.id, VolumeUnresolved);
        var k :| 0 <= k < |ws| && ws[k] == w;
        assert vs[k] in vs && Open(vs[k]) && vs[k].id == w.id;
      }
    }
    assert a <= c;
  }

  lemma RootCodes(r: Record)
    ensures RootIssue(r).Some? ==> RootIssue(r).value in {RootVolumeUnverified, RootVolumeRetained}
  {
  }

  /** Nothing but unresolved volumes is added to the problems of a turn. */
  lemma NothingElse(a: seq<Problem>, b: seq<Problem>, vs: seq<Volume>, p: Problem)
    requires Reported(a, b, vs) && p.code != VolumeUnresolved
    ensures p in b <==> p in a
  {
    hide Open;
    forall j | |a| <= j < |b|
      ensures b[j] != p
    {
      assert Unresolves(vs, b[j]);
    }
  }

  lemma ReportedGrows(a: seq<Problem>, b: seq<Problem>, vs: seq<Volume>)
    requires Reported(a, b, vs)
    ensures a <= b
  {
  }

  /** What a turn that passes over a volume makes of it. */
  ghost function Passed(v: Volume): Volume {
    if v.deletion.Deleted? || v.deletion.Retained? then v
    else v.(deletion := if v.flag == Some(false) then Retained else Unavailable)
  }

  /** The captured volumes, whatever has been learned of their deletion since. */
  ghost predicate SameVolumes(a: seq<Volume>, b: seq<Volume>) {
    |a| == |b| && forall i | 0 <= i < |a| :: a[i] == b[i].(deletion := a[i].deletion)
  }

  lemma DispatchesAppend(log: seq<Event>, e: Event)
    ensures Dispatches(log + [e]) == Dispatches(log) + (if e.Dispatched? then 1 else 0)
  {
    assert (log + [e])[..|log|] == log;
  }

  lemma LawfulAppend(scope: Scope, selected: Decision, captured: Record, log: seq<Event>, e: Event)
    requires Lawful(scope, selected, captured, log) && Backed(scope, selected, captured, log + [e], |log|)
    requires e.Dispatched? ==> Dispatches(log) == 0
    ensures Lawful(scope, selected, captured, log + [e])
    ensures Dispatches(log + [e]) == Dispatches(log) + (if e.Dispatched? then 1 else 0)
  {
    hide Backed, Dispatches;
    DispatchesAppend(log, e);
    forall n | 0 <= n < |log + [e]|
      ensures Backed(scope, selected, captured, log + [e], n)
    {
      if n < |log| {
        BackedStays(scope, selected, captured, log, e, n);
      }
    }
  }

  /** An event that claims nothing needs no evidence. */
  lemma PlainBacked(scope: Scope, selected: Decision, captured: Record, log: seq<Event>, e: Event)
    requires !e.Dispatched? && !e.SeenTerminated?
    ensures Backed(scope, selected, captured, log + [e], |log|)
  {
  }

  lemma EndBacked(scope: Scope, selected: Decision, captured: Record, log: seq<Event>, current: Record, now: Clock)
    requires log != [] && log[|log| - 1] == Reread(current, now) && EndShown(scope, selected, current.resource, now)
    ensures Backed(scope, selected, captured, log + [SeenTerminated], |log|)
  {
    var all := log + [SeenTerminated];
    assert all[|log| - 1] == log[|log| - 1];
  }

  lemma WarrantBacked(scope: Scope, selected: Decision, captured: Record, log: seq<Event>)
    requires Warranted(scope, selected, captured, log + [Dispatched], |log|)
    ensures Backed(scope, selected, captured, log + [Dispatched], |log|)
  {
  }

  lemma GoneStays(log: seq<Event>, e: Event, volume: string)
    requires GoneAfterEnd(log, volume)
    ensures GoneAfterEnd(log + [e], volume)
  {
    var i, j :| 0 <= i < j < |log| && log[i].SeenTerminated? && log[j] == Queried(volume, true);
    assert (log + [e])[i].SeenTerminated? && (log + [e])[j] == Queried(volume, true);
  }

  lemma NowGone(log: seq<Event>, volume: string)
    requires SeenTerminated in log
    ensures GoneAfterEnd(log + [Queried(volume, true)], volume)
  {
    var i :| 0 <= i < |log| && log[i] == SeenTerminated;
    assert (log + [Queried(volume, true)])[i].SeenTerminated?;
    assert (log + [Queried(volume, true)])[|log|] == Queried(volume, true);
  }

  /** Everything a worker claims about deletion, as a relation on its parts. */
  ghost predicate Proven(log: seq<Event>, terminal: bool, volumes: seq<Volume>, root: Deletion, captured: Record) {
    && (terminal ==> SeenTerminated in log)
    && (forall v | v in volumes && v.deletion.Deleted? :: terminal && GoneAfterEnd(log, v.id))
    && (root.Deleted? ==> terminal && RootID(captured).Some? && GoneAfterEnd(log, RootID(captured).value))
  }

  lemma ProvenAppend(log: seq<Event>, e: Event, terminal: bool, volumes: seq<Volume>, root: Deletion, captured: Record)
    requires Proven(log, terminal, volumes, root, captured)
    ensures Proven(log + [e], terminal, volumes, root, captured)
    ensures e.SeenTerminated? ==> Proven(log + [e], true, volumes, root, captured)
  {
    hide GoneAfterEnd, RootID;
    if terminal {
      assert SeenTerminated in log + [e];
    }
    if e.SeenTerminated? {
      assert (log + [e])[|log|] == SeenTerminated;
    }
    forall v | v in volumes && v.deletion.Deleted?
      ensures GoneAfterEnd(log + [e], v.id)
    {
      GoneStays(log, e, v.id);
    }
    if root.Deleted? {
      GoneStays(log, e, RootID(captured).value);
    }
  }

  class Worker {
    const scope: Scope
    const selected: Decision
    const captured: Record
    var status: Status
    var state: State
    var reason: Reason
    var eligible: bool
    var volumes: seq<Volume>
    var rootDeletion: Deletion
    var errors: seq<Problem>
    var active: bool
    var terminal: bool
    var nextVolume: nat
    var log: seq<Event>
    /** The rotation before the first turn and after each, and what each turn asked about. */
    var turns: seq<Rotation>
    var asked: seq<Option<nat>>
    /** What `prepare` and each turn of observation were told. */
    var given: Option<Taking>
    var seen: seq<Look>

    /** A terminal worker was seen terminated, every claim of deletion has its evidence, every termination its warrant,
        and a worker under observation still has the volumes it captured. */
    ghost predicate Valid()
      reads this
    {
      && Proven(log, terminal, volumes, rootDeletion, captured) && Lawful(scope, selected, captured, log)
      && (active ==> SameVolumes(volumes, captured.volumes)) && OnlyKept(volumes)
      && Rotated(captured.badMapping, turns, asked)
      && (nextVolume == 0 || nextVolume < |volumes|)
    }

    /** A worker that waits has changed its volumes in its recorded turns only. */
    ghost predicate InStep()
      reads this
    {
      active && asked != [] ==> turns != [] && turns[|turns| - 1] == Rotation(volumes, nextVolume)
    }

    /** A candidate that fresh evidence took back. */
    ghost predicate Withdrawn()
      reads this
    {
      status.Skipped? && !eligible && !active && Overruled(scope, selected, log)
    }

    /** The instance was seen terminated and its root seen gone, or there never were volumes to see. */
    ghost predicate Gone()
      reads this
    {
      terminal && (rootDeletion.Deleted? || MappingsAbsent(captured, selected.reason))
    }

    /** Nothing about an instance to act on is forgotten: it has a problem, was withdrawn, is still under observation,
        or is gone with its root. */
    ghost predicate Accounted()
      reads this
    {
      || errors != [] || Withdrawn() || Gone()
      || (active && (terminal ==> RootIssue(captured).None? && Unsettled(captured.badMapping, volumes)))
    }

    /** An exact read that shows the end of this instance. */
    ghost predicate Ends(e: Exact) {
      Singular(e, selected.id).Some? && EndShown(scope, selected, Singular(e, selected.id).value.resource, e.now)
    }

    /** The log and the end are exactly what the worker was told: one dispatch if everything authorised it, and the end
        if some exact read showed it. */
    ghost predicate Told()
      reads this
    {
      Accords(log, terminal, given, seen)
    }

    ghost predicate Accords(log: seq<Event>, terminal: bool, given: Option<Taking>, seen: seq<Look>) {
      && Dispatches(log)
         == (if given.Some? && Authorised(scope, selected, captured, given.value.emitted, given.value.exact,
                                          given.value.cancelled) then 1 else 0)
      && (terminal <==>
            || (given.Some? && Heard(given.value.emitted, given.value.exact) && Ends(given.value.exact))
            || exists k :: 0 <= k < |seen| && Ends(seen[k].exact))
    }

    /** Some evidence about the worker could not be put on record. */
    ghost predicate Unheard()
      reads this
    {
      Problem(selected.id, EvidenceUnavailable) in errors
    }

    /** What is wrong with the captured root, except where its absence is history. */
    ghost function RootComplaint(): seq<Problem>
      reads this
    {
      if MappingsAbsent(captured, selected.reason) then [] else Complaint(selected.id, RootIssue(captured))
    }

    /** An exact row was read in time: of a candidate with a verified root after its acknowledged announcement. */
    ghost predicate Heard(emitted: bool, exact: Exact) {
      && (selected.eligible ==> RootIssue(captured).None? && emitted) && Singular(exact, selected.id).Some?
    }

    constructor (s: Scope, d: Decision, r: Record, first: Status, absent: bool, initial: seq<Problem>)
      requires Undeleted(r.volumes)
      ensures scope == s && selected == d && captured == r && Valid() && log == [] && !active && !terminal
      ensures status == first && volumes == r.volumes && errors == initial && nextVolume == 0 && asked == []
              && given.None? && seen == []
      ensures state == d.state && reason == d.reason && eligible == d.eligible
      ensures rootDeletion == if absent then Unavailable else NotObserved
    {
      scope, selected, captured := s, d, r;
      status, state, reason, eligible := first, d.state, d.reason, d.eligible;
      volumes, errors, active, terminal, nextVolume, log := r.volumes, initial, false, false, 0, [];
      rootDeletion := if absent then Unavailable else NotObserved;
      turns, asked, given, seen := [], [], None, [];
    }

    /** One event, with its evidence before it; a dispatch only if there was none. */
    method Note(e: Event)
      requires Valid() && (e.Dispatched? ==> Dispatches(log) == 0)
      requires e.Dispatched? || e.SeenTerminated? ==> Backed(scope, selected, captured, log + [e], |log|)
      modifies this`log
      ensures Valid() && log == old(log) + [e]
      ensures Dispatches(log) == old(Dispatches(log)) + (if e.Dispatched? then 1 else 0)
    {
      hide Rotated, Proven, Lawful, Backed, Dispatches;
      if !e.Dispatched? && !e.SeenTerminated? {
        PlainBacked(scope, selected, captured, log, e);
      }
      ProvenAppend(log, e, terminal, volumes, rootDeletion, captured);
      LawfulAppend(scope, selected, captured, log, e);
      log := log + [e];
    }

    method AddProblem(code: ProblemCode)
      requires Valid()
      modifies this`errors
      ensures Valid() && errors == old(errors) + [Problem(selected.id, code)]
    {
      errors := errors + [Problem(selected.id, code)];
    }

    method SetRootDiagnostic(code: ProblemCode)
      requires Valid()
      modifies this`rootDeletion
      ensures Valid() && rootDeletion == if code == RootVolumeRetained then Retained else Unavailable
    {
      hide Rotated, Lawful, GoneAfterEnd, SameVolumes;
      rootDeletion := if code == RootVolumeRetained then Retained else Unavailable;
    }

    /** The announcement and the exact read after it; what they say decides whether to go on. */
    method Reconsider(emitted: bool, exact: Exact) returns (row: Option<Record>, d: Decision)
      requires Valid() && Dispatches(log) == 0 && Dated(selected)
      requires selected.eligible ==> RootIssue(captured).None?
      modifies this`log, this`errors
      ensures Valid() && Dispatches(log) == 0
      ensures row == if Heard(emitted, exact) then Singular(exact, selected.id) else None
      ensures log == old(log) + (if selected.eligible then [PreparedEvent(emitted)] else [])
                     + (if row.Some? then [Reread(row.value, exact.now)] else [])
      ensures errors == old(errors)
                        + Complaint(selected.id, if row.Some? then None
                                                 else if selected.eligible && !emitted then Some(EvidenceUnavailable)
                                                 else Some(ResourceUnverified))
      ensures row.Some? ==>
                var r := row.value.resource;
                && d.state == r.state && (d.eligible <==> d.reason == Expired)
                && (d.eligible <==> Upheld(scope, selected, r, exact.now) && Live(r.state))
                && (d.reason == AlreadyTerminated <==> EndShown(scope, selected, r, exact.now))
                && (d.reason == AlreadyTerminating <==> Upheld(scope, selected, r, exact.now) && r.state.ShuttingDown?)
                && Explains(scope, selected, r, exact.now, d.reason)
    {
      hide Rotated, Proven, Lawful, SameVolumes, Upheld, Explains, Backed, Dispatches, OnlyKept, RootIssue, Live;
      d := selected;
      if selected.eligible {
        Note(PreparedEvent(emitted));
        if !emitted {
          AddProblem(EvidenceUnavailable);
          return None, d;
        }
      }
      row := ExactRow(exact, selected.id);
      if row.None? {
        AddProblem(ResourceUnverified);
        return;
      }
      Note(Reread(row.value, exact.now));
      d := Reevaluate(scope, selected, row.value.resource, exact.now);
    }

    /** The one TerminateInstances call of this worker. A lost answer may follow an accepted request, so only a refusal
        ends the observation. */
    method Send(answer: Dispatch)
      requires Valid() && Dispatches(log) == 0 && Warranted(scope, selected, captured, log + [Dispatched], |log|)
      requires SameVolumes(volumes, captured.volumes)
      modifies this`log, this`status, this`errors, this`active
      ensures Valid() && log == old(log) + [Dispatched] && Dispatches(log) == 1
      ensures status == match answer
                        case Denied | Protected => TerminationDeniedStatus
                        case Acknowledged => TerminationRequested
                        case Uncertain => TerminationUnknown
      ensures active <==> old(active) || answer.Acknowledged? || answer.Uncertain?
      ensures errors == old(errors)
                        + Complaint(selected.id, if answer.Denied? then Some(TerminationDenied)
                                                 else if answer.Protected? then Some(TerminationProtected) else None)
    {
      hide Rotated, Proven, Lawful, Warranted, Dispatches, SameVolumes, OnlyKept;
      WarrantBacked(scope, selected, captured, log);
      Note(Dispatched);
      match answer {
        case Denied =>
          status := TerminationDeniedStatus;
          AddProblem(TerminationDenied);
        case Protected =>
          status := TerminationDeniedStatus;
          AddProblem(TerminationProtected);
        case Acknowledged => status, active := TerminationRequested, true;
        case Uncertain => status, active := TerminationUnknown, true;
      }
    }

    /** What follows a fresh read that upholds the selection. */
    method Proceed(why: Reason, current: Record, now: Clock, cancelled: bool, answer: Dispatch, historical: bool)
      requires Valid() && Dispatches(log) == 0 && !active && !terminal && volumes == captured.volumes
               && Undeleted(current.volumes)
      requires Dated(selected) && historical == MappingsAbsent(captured, selected.reason)
      requires log != [] && log[|log| - 1] == Reread(current, now) && Upheld(scope, selected, current.resource, now)
      requires why == AlreadyTerminated <==> current.resource.state.Terminated?
      requires why == AlreadyTerminating <==> current.resource.state.ShuttingDown?
      requires Live(current.resource.state) && selected.eligible && ConsistentMappings(captured, current) ==>
                 Warranted(scope, selected, captured, log + [Dispatched], |log|)
      requires selected.eligible ==> RootIssue(captured).None?
      requires state == current.resource.state && !state.OtherState?
      modifies this`log, this`status, this`errors, this`active, this`volumes, this`rootDeletion, this`terminal,
               this`state
      ensures Valid() && state == old(state) && (terminal <==> current.resource.state.Terminated?)
      ensures Sequel(status, active, SequelOf(captured, selected, current, cancelled, answer, old(status)).problem)
              == SequelOf(captured, selected, current, cancelled, answer, old(status))
      ensures errors == old(errors)
                        + Complaint(selected.id,
                                    SequelOf(captured, selected, current, cancelled, answer, old(status)).problem)
      ensures ConsistentMappings(captured, current) ==> volumes == old(volumes) && rootDeletion == old(rootDeletion)
      ensures !ConsistentMappings(captured, current) ==>
                volumes == MergeMappings(old(volumes), current.volumes) && rootDeletion == Unavailable
      ensures Dispatches(log) <= 1
      ensures log == old(log) + (if terminal then [SeenTerminated] else [])
                     + (if Live(current.resource.state) && selected.eligible && !cancelled
                           && ConsistentMappings(captured, current)
                        then [Dispatched] else [])
      ensures Dispatches(log) > 0 <==> Live(current.resource.state) && selected.eligible && !cancelled
                                       && ConsistentMappings(captured, current)
      ensures RootIssue(captured).None? ==> Accounted()
      ensures historical ==> Accounted()
    {
      hide Rotated, Proven, Lawful, Warranted, Dispatches, ConsistentMappings, MappingsAbsent, SameVolumes, Upheld,
           OnlyKept, RootIssue, Unsettled, Overruled, Undeleted;
      if RootIssue(captured).None? {
        RootPending();
      }
      NotHistorical();
      if why == AlreadyTerminated {
        SeeTerminated(AlreadyGone, current, now);
      }
      var consistent := MappingsConsistent(captured, current);
      if !consistent {
        Contradicted(current.volumes);
        return;
      }
      SameAreSame(captured.volumes);
      if why == AlreadyTerminated {
        if historical {
          var absent := HistoricalMappingsAbsent(current, why);
          if !absent {
            AddProblem(RootVolumeUnverified);
          }
          return;
        }
        active := true;
      } else if why == AlreadyTerminating {
        status, active := AlreadyGoing, true;
      } else if !selected.eligible {
        AddProblem(ResourceUnverified);
      } else if cancelled {
        AddProblem(Interrupted);
      } else {
        Send(answer);
      }
    }

    /** A verified root that was not seen gone is still to be asked about. */
    lemma RootPending()
      requires Valid() && !terminal && RootIssue(captured).None? && volumes == captured.volumes
      ensures Unsettled(captured.badMapping, volumes)
    {
      hide Rotated, Lawful, GoneAfterEnd;
      assert Roots(volumes)[0] in Roots(volumes);
      RootsHeld(volumes, Roots(volumes)[0]);
    }

    /** A selection that the fresh read no longer supports. */
    method Withdraw(why: Reason)
      requires Valid()
      modifies this`status, this`eligible, this`reason, this`errors
      ensures Valid() && status == Skipped && !eligible && reason == why
      ensures errors == old(errors) + Complaint(selected.id, if Benign(why) then None else Some(PolicyProblem(why)))
    {
      hide Rotated, Proven, Lawful, SameVolumes, OnlyKept;
      status, eligible, reason := Skipped, false, why;
      var benign := IsBenign(why);
      if !benign {
        AddProblem(PolicyProblem(why));
      }
    }

    /** `prepare`: one dispatch exactly when everything authorises it, and none otherwise; nothing is ever retried. It
        leaves the worker withdrawn by fresh evidence, under observation, seen gone, or with a problem. */
    method Prepare(emitted: bool, exact: Exact, cancelled: bool, answer: Dispatch)
      requires Valid() && Dispatches(log) == 0 && !active && !terminal && volumes == captured.volumes && nextVolume == 0
      requires Dated(selected) && forall r | r in exact.records :: Undeleted(r.volumes)
      requires seen == []
      modifies this`log, this`status, this`state, this`reason, this`eligible, this`volumes, this`rootDeletion,
               this`errors, this`active, this`terminal, this`given
      ensures Valid() && Accounted() && old(log) <= log && old(errors) <= errors
      ensures given == Some(Taking(emitted, exact, cancelled, answer)) && Told()
      ensures Unheard() <==> old(Unheard()) || (selected.eligible && RootIssue(captured).None? && !emitted)
      ensures Dispatches(log) == if Authorised(scope, selected, captured, emitted, exact, cancelled) then 1 else 0
      ensures Taken(emitted, exact, cancelled, answer, old(errors) + RootComplaint(), errors, old(status), old(state),
                    old(reason), old(eligible),
                    if RootComplaint() == [] then old(rootDeletion)
                    else if RootComplaint()[0].code == RootVolumeRetained then Retained else Unavailable)
    {
      hide Rotated, Proven, Lawful, Dispatches, RootIssue, MappingsAbsent, OnlyKept, Authorised, Taken, Accounted;
      ghost var errs, first, was, why, could, root := errors, status, state, reason, eligible, rootDeletion;
      given := Some(Taking(emitted, exact, cancelled, answer));
      TakeUp(emitted, exact, cancelled, answer);
      TakenTold(emitted, exact, cancelled, answer, errs, first, was, why, could,
                if RootComplaint() == [] then root
                else if RootComplaint()[0].code == RootVolumeRetained then Retained else Unavailable);
    }

    /** What `prepare` does with what it was told. */
    method TakeUp(emitted: bool, exact: Exact, cancelled: bool, answer: Dispatch)
      requires Valid() && Dispatches(log) == 0 && !active && !terminal && volumes == captured.volumes && nextVolume == 0
      requires Dated(selected) && forall r | r in exact.records :: Undeleted(r.volumes)
      modifies this`log, this`status, this`state, this`reason, this`eligible, this`volumes, this`rootDeletion,
               this`errors, this`active, this`terminal
      ensures Valid() && Accounted() && old(log) <= log && old(errors) <= errors
      ensures Dispatches(log) == if Authorised(scope, selected, captured, emitted, exact, cancelled) then 1 else 0
      ensures Taken(emitted, exact, cancelled, answer, old(errors) + RootComplaint(), errors, old(status), old(state),
                    old(reason), old(eligible),
                    if RootComplaint() == [] then old(rootDeletion)
                    else if RootComplaint()[0].code == RootVolumeRetained then Retained else Unavailable)
    {
      hide Rotated, Proven, Lawful, Upheld, Warranted, Dispatches, RootIssue, ConsistentMappings, MappingsAbsent,
           SameVolumes, OnlyKept, Unsettled, Singular, Authorised, Answered, Explains;
      var historical := HistoricalMappingsAbsent(captured, selected.reason);
      var code := RootProblem(captured);
      NotHistorical();
      if code.Some? && !historical {
        AddProblem(code.value);
        SetRootDiagnostic(code.value);
        if selected.eligible {
          NotAuthorised(emitted, exact, cancelled);
          return;
        }
      }
      assert errors == old(errors) + RootComplaint();
      Pursue(emitted, exact, cancelled, answer, historical);
    }

    /** What `prepare` leaves behind shows the end exactly if it was told so, and lacks evidence exactly if the
        announcement did. */
    lemma TakenTold(emitted: bool, exact: Exact, cancelled: bool, answer: Dispatch, before: seq<Problem>,
                    first: Status, was: State, why: Reason, could: bool, root: Deletion)
      requires Taken(emitted, exact, cancelled, answer, before + RootComplaint(), errors, first, was, why, could, root)
      ensures terminal <==> Heard(emitted, exact) && Ends(exact)
      ensures Unheard() <==>
                Problem(selected.id, EvidenceUnavailable) in before
                || (selected.eligible && RootIssue(captured).None? && !emitted)
    {
      hide Explains, Benign, ConsistentMappings, MappingsAbsent, Upheld;
      var e := Problem(selected.id, EvidenceUnavailable);
      assert e !in RootComplaint() by {
        hide Taken;
      }
      hide RootIssue;
    }

    lemma NotAuthorised(emitted: bool, exact: Exact, cancelled: bool)
      requires RootIssue(captured).Some?
      ensures !Authorised(scope, selected, captured, emitted, exact, cancelled)
    {
    }

    /** What `prepare` leaves behind. Nothing changes without an answer in time. */
    ghost predicate Taken(emitted: bool, exact: Exact, cancelled: bool, answer: Dispatch, before: seq<Problem>,
                          after: seq<Problem>, first: Status, was: State, why: Reason, could: bool, root: Deletion)
      reads this
    {
      if !Heard(emitted, exact) then
        && status == first && state == was && reason == why && eligible == could && !active && !terminal
        && volumes == captured.volumes && rootDeletion == root
        && after == before + Complaint(selected.id,
                                       if selected.eligible && RootIssue(captured).Some? then None
                                       else if selected.eligible && !emitted then Some(EvidenceUnavailable)
                                       else Some(ResourceUnverified))
      else
        Answered(Singular(exact, selected.id).value, exact.now, cancelled, answer, before, after, first, why, could,
                 root)
    }

    /** An observation that does not uphold the selection withdraws it for its own reason; one that does leads to the
        sequel. */
    ghost predicate Answered(row: Record, now: Clock, cancelled: bool, answer: Dispatch, before: seq<Problem>,
                             after: seq<Problem>, first: Status, why: Reason, could: bool, root: Deletion)
      reads this
    {
      && state == row.resource.state
      && if !Upheld(scope, selected, row.resource, now) || row.resource.state.OtherState? then
           && status == Skipped && !eligible && !active && !terminal && volumes == captured.volumes
           && rootDeletion == root
           && Explains(scope, selected, row.resource, now, reason)
           && after == before + Complaint(selected.id, if Benign(reason) then None else Some(PolicyProblem(reason)))
         else
           var sequel := SequelOf(captured, selected, row, cancelled, answer, first);
           && reason == why && eligible == could && status == sequel.status && active == sequel.active
           && (terminal <==> row.resource.state.Terminated?)
           && after == before + Complaint(selected.id, sequel.problem)
           && volumes == (if ConsistentMappings(captured, row) then captured.volumes
                          else MergeMappings(captured.volumes, row.volumes))
           && rootDeletion == if ConsistentMappings(captured, row) then root else Unavailable
    }

    /** The rest of `prepare`, for a worker whose mappings allow it. */
    method Pursue(emitted: bool, exact: Exact, cancelled: bool, answer: Dispatch, historical: bool)
      requires Valid() && Dispatches(log) == 0 && !active && !terminal && volumes == captured.volumes
      requires Dated(selected) && forall r | r in exact.records :: Undeleted(r.volumes)
      requires historical == MappingsAbsent(captured, selected.reason)
      requires selected.eligible ==> RootIssue(captured).None?
      requires RootIssue(captured).Some? && !historical ==> errors != []
      modifies this`log, this`status, this`state, this`reason, this`eligible, this`volumes, this`rootDeletion,
               this`errors, this`active, this`terminal
      ensures Valid() && Accounted() && old(log) <= log && old(errors) <= errors
      ensures Dispatches(log) == if Authorised(scope, selected, captured, emitted, exact, cancelled) then 1 else 0
      ensures Taken(emitted, exact, cancelled, answer, old(errors), errors, old(status), old(state), old(reason),
                    old(eligible), old(rootDeletion))
    {
      hide Rotated, Proven, Lawful, Upheld, Warranted, Dispatches, RootIssue, ConsistentMappings, MappingsAbsent,
           SameVolumes, OnlyKept, Unsettled, SequelOf, Explains, Answered, Benign;
      var row, d := Reconsider(emitted, exact);
      if row.None? {
        return;
      }
      assert row.value in exact.records && errors == old(errors);
      Follow(row.value, exact.now, d, cancelled, answer, historical);
    }

    /** What follows the fresh read. */
    method Follow(current: Record, now: Clock, d: Decision, cancelled: bool, answer: Dispatch, historical: bool)
      requires Valid() && Dispatches(log) == 0 && !active && !terminal && volumes == captured.volumes
      requires Dated(selected) && Undeleted(current.volumes) && current.resource.id == selected.id
      requires historical == MappingsAbsent(captured, selected.reason)
      requires selected.eligible ==> RootIssue(captured).None?
      requires RootIssue(captured).Some? && !historical ==> errors != []
      requires log != [] && log[|log| - 1] == Reread(current, now)
      requires selected.eligible ==> |log| >= 2 && log[|log| - 2] == PreparedEvent(true)
      requires d.state == current.resource.state && (d.eligible <==> d.reason == Expired)
      requires d.eligible <==> Upheld(scope, selected, current.resource, now) && Live(d.state)
      requires d.reason == AlreadyTerminated <==> Upheld(scope, selected, current.resource, now) && d.state.Terminated?
      requires d.reason == AlreadyTerminating <==>
                 Upheld(scope, selected, current.resource, now) && d.state.ShuttingDown?
      requires Explains(scope, selected, current.resource, now, d.reason)
      modifies this`log, this`status, this`state, this`reason, this`eligible, this`volumes, this`rootDeletion,
               this`errors, this`active, this`terminal
      ensures Valid() && Accounted() && old(log) <= log && old(errors) <= errors
      ensures Dispatches(log) == if d.eligible && selected.eligible && !cancelled
                                    && ConsistentMappings(captured, current) then 1 else 0
      ensures Answered(current, now, cancelled, answer, old(errors), errors, old(status), old(reason), old(eligible),
                       old(rootDeletion))
    {
      hide Rotated, Proven, Lawful, Upheld, Warranted, Dispatches, RootIssue, ConsistentMappings, MappingsAbsent,
           SameVolumes, OnlyKept, Unsettled, SequelOf, Explains;
      state := d.state;
      if !d.eligible && d.reason != AlreadyTerminated && d.reason != AlreadyTerminating {
        Withdraw(d.reason);
        return;
      }
      if d.eligible && selected.eligible && ConsistentMappings(captured, current) {
        WarrantNow(current, now);
      }
      Proceed(d.reason, current, now, cancelled, answer, historical);
    }

    lemma NotHistorical()
      requires Dated(selected)
      ensures selected.eligible ==> !MappingsAbsent(captured, selected.reason)
    {
    }

    lemma WarrantNow(current: Record, now: Clock)
      requires |log| >= 2 && log[|log| - 1] == Reread(current, now) && log[|log| - 2] == PreparedEvent(true)
      requires RootIssue(captured).None?
      requires ConsistentMappings(captured, current) && StillExpired(scope, selected, current.resource, now)
      ensures Warranted(scope, selected, captured, log + [Dispatched], |log|)
    {
      hide RootIssue, SameMappings;
      var all := log + [Dispatched];
      assert all[|log| - 1] == log[|log| - 1] && all[|log| - 2] == log[|log| - 2];
    }

    /** The end counts as seen only right behind the exact read that shows it. */
    method SeeTerminated(how: Status, current: Record, now: Clock)
      requires Valid() && log != [] && log[|log| - 1] == Reread(current, now)
               && EndShown(scope, selected, current.resource, now)
      modifies this`log, this`status, this`terminal, this`state
      ensures Valid() && log == old(log) + [SeenTerminated] && terminal && status == how && state == Terminated
      ensures Dispatches(log) == old(Dispatches(log))
    {
      hide Rotated, Proven, Lawful, Dispatches, Backed, EndShown, OnlyKept, SameVolumes;
      EndBacked(scope, selected, captured, log, current, now);
      ProvenAppend(log, SeenTerminated, terminal, volumes, rootDeletion, captured);
      Note(SeenTerminated);
      status, terminal, state := how, true, Terminated;
    }

    /** Mappings that contradict the captured ones are kept beside them, and end every hope of proving deletion. */
    method Contradicted(found: seq<Volume>)
      requires Valid() && Undeleted(found)
      modifies this`volumes, this`rootDeletion, this`errors, this`active
      ensures Valid() && !active && rootDeletion == Unavailable && volumes == MergeMappings(old(volumes), found)
      ensures errors == old(errors) + [Problem(selected.id, RootVolumeUnverified)]
    {
      hide Rotated, Lawful, GoneAfterEnd, SameVolumes;
      volumes := Merge(volumes, found);
      errors := errors + [Problem(selected.id, RootVolumeUnverified)];
      rootDeletion, active := Unavailable, false;
    }

    /** A problem is put on record once. */
    method AddOnce(p: Problem)
      requires Valid()
      modifies this`errors
      ensures Valid() && errors == Including(old(errors), p)
    {
      if p !in errors {
        errors := errors + [p];
      }
    }

    /** One step of the rotation: a volume that is not waiting is put on record as what it is and passed over. */
    method PassOver(i: nat) returns (passed: bool)
      requires Valid() && i < |volumes|
      modifies this`volumes, this`errors
      ensures Valid() && (passed <==> !Awaits(captured.badMapping, old(volumes)[i]))
      ensures volumes == if passed then old(volumes)[i := Passed(old(volumes)[i])] else old(volumes)
      ensures errors == if passed && Open(old(volumes)[i]) && old(volumes)[i].flag.None?
                        then Including(old(errors), Problem(old(volumes)[i].id, VolumeUnresolved)) else old(errors)
    {
      hide Rotated, Lawful, GoneAfterEnd, RootID;
      var v := volumes[i];
      if v.deletion.Deleted? || v.deletion.Retained? {
        return true;
      }
      if v.flag.None? {
        volumes := volumes[i := v.(deletion := Unavailable)];
        AddOnce(Problem(v.id, VolumeUnresolved));
        return true;
      }
      if !v.flag.value {
        volumes := volumes[i := v.(deletion := Retained)];
        return true;
      }
      if captured.badMapping {
        volumes := volumes[i := v.(deletion := Unavailable)];
        return true;
      }
      return false;
    }

    /** The rotation: at most one volume is asked about, the first one waiting from `nextVolume` on; the next turn
        starts behind it. Those before it are passed over, and the others stay as they are. */
    method Rotate(gone: bool) returns (queried: Option<nat>)
      requires Valid() && terminal
      modifies this`volumes, this`errors, this`nextVolume, this`log
      ensures Valid() && Dispatches(log) == old(Dispatches(log))
      ensures Reported(old(errors), errors, old(volumes))
      ensures SameVolumes(volumes, old(volumes))
              && Turned(captured.badMapping, old(volumes), old(nextVolume), queried, volumes, nextVolume)
      ensures queried.None? ==> log == old(log)
      ensures |volumes| == |old(volumes)|
      ensures queried.Some? ==>
                queried.value < |old(volumes)| && Awaits(captured.badMapping, old(volumes)[queried.value])
                && log == old(log) + [Queried(old(volumes)[queried.value].id, gone)]
      ensures queried.Some? ==>
                volumes[queried.value] == if gone then old(volumes)[queried.value].(deletion := Deleted)
                                          else old(volumes)[queried.value]
      ensures forall k | 0 <= k < |volumes| && queried != Some(k) ::
                if PassedBy(old(nextVolume), k, queried, |volumes|) then
                  && volumes[k] == Passed(old(volumes)[k])
                  && (Open(old(volumes)[k]) && volumes[k].flag.None? ==>
                        Problem(volumes[k].id, VolumeUnresolved) in errors)
                else volumes[k] == old(volumes)[k]
    {
      hide Rotated, Proven, Lawful, Dispatches, Awaits, Passed, Reported, Including, Open, SameVolumes, Turned,
           OnlyKept;
      ghost var vs, next := volumes, nextVolume;
      NothingReported(errors, vs);
      for step := 0 to |volumes|
        invariant Valid() && |volumes| == |vs| && nextVolume == next && log == old(log)
        invariant Reported(old(errors), errors, vs)
        invariant forall k | 0 <= k < |vs| && Distance(next, k, |vs|) < step ::
                    && volumes[k] == Passed(vs[k]) && !Awaits(captured.badMapping, vs[k])
                    && (Open(vs[k]) && vs[k].flag.None? ==> Problem(vs[k].id, VolumeUnresolved) in errors)
        invariant forall k | 0 <= k < |vs| && Distance(next, k, |vs|) >= step :: volumes[k] == vs[k]
      {
        var i := if nextVolume + step < |volumes| then nextVolume + step else nextVolume + step - |volumes|;
        assert Distance(next, i, |vs|) == step && volumes[i] == vs[i];
        ghost var before := errors;
        var passed := PassOver(i);
        if !passed {
          ghost var ws := volumes;
          PassedSame(captured.badMapping, vs, ws);
          Ask(i, gone);
          AskedTurn(captured.badMapping, vs, next, i, ws, volumes);
          return Some(i);
        }
        ReportedMore(old(errors), before, errors, vs, i);
      }
      PassedSame(captured.badMapping, vs, volumes);
      EmptyTurn(captured.badMapping, vs, next, volumes);
      return None;
    }

    /** One exact question about one volume, and its answer. */
    method Ask(i: nat, gone: bool)
      requires Valid() && terminal && i < |volumes| && Awaits(captured.badMapping, volumes[i])
      modifies this`volumes, this`nextVolume, this`log
      ensures Valid() && Dispatches(log) == old(Dispatches(log))
              && log == old(log) + [Queried(old(volumes)[i].id, gone)]
      ensures volumes == (if gone then old(volumes)[i := old(volumes)[i].(deletion := Deleted)] else old(volumes))
      ensures nextVolume == if i + 1 == |volumes| then 0 else i + 1
    {
      hide Rotated, Lawful, Dispatches, GoneAfterEnd, RootID;
      var v := volumes[i];
      NowGoneIf(log, v.id, gone, terminal, captured);
      Note(Queried(v.id, gone));
      if gone {
        volumes := volumes[i := v.(deletion := Deleted)];
      }
      nextVolume := if i + 1 == |volumes| then 0 else i + 1;
    }

    lemma NowGoneIf(log: seq<Event>, volume: string, gone: bool, terminal: bool, captured: Record)
      requires terminal && SeenTerminated in log
      ensures gone ==> GoneAfterEnd(log + [Queried(volume, true)], volume)
    {
      NowGone(log, volume);
    }

    /** `unresolvedVolumes`: what is neither deleted nor retained stays unavailable. */
    method UnresolvedVolumes()
      requires Valid()
      modifies this`volumes, this`errors, this`rootDeletion
      ensures Valid() && |volumes| == |old(volumes)| && SameVolumes(volumes, old(volumes))
      ensures forall k | 0 <= k < |volumes| ::
                volumes[k].deletion == if old(volumes)[k].deletion.Deleted? || old(volumes)[k].deletion.Retained?
                                                                  then old(volumes)[k].deletion else Unavailable
      ensures rootDeletion.Deleted? ==> old(rootDeletion).Deleted?
      ensures (forall k | 0 <= k < |old(volumes)| && old(volumes)[k].root :: old(volumes)[k].deletion.Deleted?) ==>
                rootDeletion == old(rootDeletion)
      ensures Reported(old(errors), errors, old(volumes))
      ensures forall v | v in old(volumes) && Open(v) :: Problem(v.id, VolumeUnresolved) in errors
      ensures (exists v :: v in old(volumes) && v.root && Open(v)) ==> rootDeletion == Unavailable
      ensures (forall v | v in old(volumes) :: !Open(v)) ==> errors == old(errors)
      ensures Unsettled(captured.badMapping, old(volumes)) ==> errors != []
      ensures rootDeletion == old(rootDeletion) || (rootDeletion == Unavailable && errors != [])
    {
      hide Rotated, Proven, Lawful, OnlyKept, Reported, Including;
      ghost var vs, was := volumes, rootDeletion;
      SameAreSame(vs);
      NothingReported(errors, vs);
      PendingIsOpen(captured.badMapping, vs);
      for i := 0 to |volumes|
        invariant Valid() && |volumes| == |vs| && SameVolumes(volumes, vs)
        invariant forall k | 0 <= k < i ::
                    volumes[k].deletion
                    == if vs[k].deletion.Deleted? || vs[k].deletion.Retained? then vs[k].deletion else Unavailable
        invariant forall k | i <= k < |vs| :: volumes[k] == vs[k]
        invariant rootDeletion == was || (rootDeletion == Unavailable && exists k ::
                    0 <= k < i && vs[k].root && Open(vs[k]))
        invariant forall k | 0 <= k < i && vs[k].root && Open(vs[k]) :: rootDeletion == Unavailable
        invariant Reported(old(errors), errors, vs)
        invariant forall k | 0 <= k < i && Open(vs[k]) :: Problem(vs[k].id, VolumeUnresolved) in errors
        invariant (forall k | 0 <= k < i :: !Open(vs[k])) ==> errors == old(errors)
      {
        ghost var before := errors;
        LeaveUnresolved(i);
        ReportedMore(old(errors), before, errors, vs, i);
      }
    }

    /** The body of that loop. */
    method LeaveUnresolved(i: nat)
      requires Valid() && i < |volumes|
      modifies this`volumes, this`errors, this`rootDeletion
      ensures Valid()
      ensures var v := old(volumes)[i];
              if Open(v) then
                && volumes == old(volumes)[i := v.(deletion := Unavailable)]
                && errors == Including(old(errors), Problem(v.id, VolumeUnresolved))
                && rootDeletion == if v.root then Unavailable else old(rootDeletion)
              else volumes == old(volumes) && errors == old(errors) && rootDeletion == old(rootDeletion)
    {
      hide Rotated, Lawful, GoneAfterEnd, RootID, Including;
      var v := volumes[i];
      if v.deletion.Deleted? || v.deletion.Retained? {
        return;
      }
      volumes := volumes[i := v.(deletion := Unavailable)];
      AddOnce(Problem(v.id, VolumeUnresolved));
      if v.root {
        rootDeletion := Unavailable;
      }
    }

    /** The verified root's own deletion becomes the worker's answer about its root. */
    method SettleRoot()
      requires Valid() && terminal && SameVolumes(volumes, captured.volumes)
      modifies this`rootDeletion
      ensures Valid()
      ensures RootIssue(captured).None? ==> forall v | v in volumes && v.root :: rootDeletion == v.deletion
      ensures RootIssue(captured).Some? ==> rootDeletion == old(rootDeletion)
    {
      hide Rotated, Lawful, GoneAfterEnd, RootIssue;
      var code := RootProblem(captured);
      if code.Some? {
        return;
      }
      OneRoot(captured, volumes);
      for i := 0 to |volumes|
        invariant Valid()
        invariant forall k | 0 <= k < i && volumes[k].root :: rootDeletion == volumes[k].deletion
      {
        if volumes[i].root {
          assert volumes[i] in volumes;
          rootDeletion := volumes[i].deletion;
        }
      }
    }

    /** The exact read of an observation: termination is believed only from a terminated row of this very instance with
        the captured deadline. */
    method SeeEnd(exact: Exact) returns (goOn: bool)
      requires Valid() && active && !terminal && forall r | r in exact.records :: Undeleted(r.volumes)
      modifies this`log, this`status, this`terminal, this`state, this`volumes, this`rootDeletion, this`errors,
               this`active
      ensures Valid() && Dispatches(log) == old(Dispatches(log)) && old(log) <= log && old(errors) <= errors
      ensures forall n | |old(log)| <= n < |log| :: !log[n].Queried?
      ensures log == old(log)
                     + (match Singular(exact, selected.id) case Some(r) => [Reread(r, exact.now)] case None => [])
                     + (if terminal then [SeenTerminated] else [])
      ensures goOn <==> terminal && Singular(exact, selected.id).Some?
                        && ConsistentMappings(captured, Singular(exact, selected.id).value)
      ensures goOn || !terminal ==>
                active && volumes == old(volumes) && errors == old(errors) && rootDeletion == old(rootDeletion)
      ensures terminal && !goOn ==>
                && Singular(exact, selected.id).Some? && !active
                && volumes == MergeMappings(old(volumes), Singular(exact, selected.id).value.volumes)
                && errors == old(errors) + [Problem(selected.id, RootVolumeUnverified)] && rootDeletion == Unavailable
      ensures terminal ==> status == TerminationObserved && state == Terminated
      ensures !terminal ==> status == old(status) && state == old(state)
      ensures terminal <==>
                Singular(exact, selected.id).Some?
                && EndShown(scope, selected, Singular(exact, selected.id).value.resource, exact.now)
    {
      hide Rotated, Proven, Lawful, Dispatches, ConsistentMappings, SameVolumes, InScope, Inspected, Backed, OnlyKept,
           Warrants;
      var row := ExactRow(exact, selected.id);
      if row.None? {
        return false;
      }
      assert row.value in exact.records;
      Note(Reread(row.value, exact.now));
      var d := Evaluate(scope, row.value.resource, exact.now);
      if d.reason != AlreadyTerminated || d.expiresAt.None? || selected.expiresAt.None?
         || d.expiresAt != selected.expiresAt {
        return false;
      }
      SeeTerminated(TerminationObserved, row.value, exact.now);
      var consistent := MappingsConsistent(captured, row.value);
      if !consistent {
        Contradicted(row.value.volumes);
      }
      return consistent;
    }

    /** Whether some volume that goes with its instance was not seen gone. */
    method AnyPending() returns (pending: bool)
      ensures pending <==> Unsettled(captured.badMapping, volumes)
    {
      pending := false;
      for n := 0 to |volumes|
        invariant pending <==> Unsettled(captured.badMapping, volumes[..n])
      {
        var next := volumes[..n + 1];
        assert next == volumes[..n] + [volumes[n]];
        assert volumes[n] in next && forall v :: v in next <==> v in volumes[..n] || v == volumes[n];
        if volumes[n].flag == Some(true) && !captured.badMapping && volumes[n].deletion != Deleted {
          pending := true;
        }
      }
      assert volumes[..|volumes|] == volumes;
    }

    /** The end of a turn: the root's answer, and the end of the wait when nothing is left to ask. */
    method Settle()
      requires Valid() && active && terminal
      modifies this`volumes, this`rootDeletion, this`errors, this`active
      ensures Valid() && Reported(old(errors), errors, old(volumes)) && Learned(old(volumes), volumes, None, false)
      ensures |volumes| == |old(volumes)|
      ensures forall k | 0 <= k < |volumes| :: Awaits(captured.badMapping, volumes[k]) <==>
                Awaits(captured.badMapping, old(volumes)[k])
      ensures active <==> Unsettled(captured.badMapping, volumes)
      ensures active ==> volumes == old(volumes) && errors == old(errors)
      ensures !active ==> forall v | v in volumes :: v.deletion != NotObserved
      ensures RootIssue(captured).None? ==> forall v | v in volumes && v.root :: rootDeletion == v.deletion
      ensures RootIssue(captured).None? && !active ==> rootDeletion.Deleted?
      ensures RootIssue(captured).Some? ==> rootDeletion == old(rootDeletion) || rootDeletion == Unavailable
    {
      hide Rotated, Proven, Lawful, Dispatches, RootIssue, OnlyKept, Reported;
      ghost var ws := volumes;
      SameAreSame(ws);
      NothingReported(errors, ws);
      var pending := AnyPending();
      SettleRoot();
      active := pending;
      if !active {
        if RootIssue(captured).None? {
          RootFound(captured, volumes);
        }
        UnresolvedVolumes();
        NothingAwaited(captured.badMapping, ws, volumes);
      }
    }

    /** A turn about volumes: the rotation, and what follows from it. */
    method TakeTurn(gone: bool) returns (queried: Option<nat>)
      requires Valid() && active && terminal && InStep()
      modifies this`volumes, this`rootDeletion, this`errors, this`active, this`nextVolume, this`log, this`turns,
               this`asked
      ensures InStep() && asked == old(asked) + [queried]
      ensures Valid() && Dispatches(log) == old(Dispatches(log))
      ensures Reported(old(errors), errors, old(volumes)) && Learned(old(volumes), volumes, queried, gone)
      ensures log == old(log) + Question(old(volumes), queried, gone)
      ensures Turned(captured.badMapping, old(volumes), old(nextVolume), queried, volumes, nextVolume)
      ensures active <==> Unsettled(captured.badMapping, volumes)
      ensures !active ==> forall v | v in volumes :: v.deletion != NotObserved
      ensures RootIssue(captured).None? ==> forall v | v in volumes && v.root :: rootDeletion == v.deletion
      ensures RootIssue(captured).None? && !active ==> rootDeletion.Deleted?
      ensures RootIssue(captured).Some? ==> rootDeletion == old(rootDeletion) || rootDeletion == Unavailable
    {
      hide Rotated, Proven, Lawful, Dispatches, SameVolumes, Turned, RootIssue, Awaits, OnlyKept, Unsettled, Reported,
           Learned, PassedBy;
      var vs, next := volumes, nextVolume;
      ghost var errs := errors;
      queried := Rotate(gone);
      SameChain(volumes, vs, captured.volumes);
      ghost var ws, mid := volumes, errors;
      RotationLearned(captured.badMapping, vs, ws, queried, gone);
      Settle();
      LearnedMore(vs, ws, volumes, queried, gone);
      assert |volumes| == |ws|;
      ReportedThrough(errs, mid, errors, vs, ws, queried, gone);
      TurnedOver(captured.badMapping, vs, next, queried, ws, volumes, nextVolume);
      RecordTurn(Rotation(vs, next), queried);
    }

    /** The answer about the root: the verified root's own, or none that claims deletion. */
    ghost predicate RootSettled()
      reads this
    {
      match RootIssue(captured)
      case None => forall v | v in volumes && v.root :: rootDeletion == v.deletion
      case Some(code) => rootDeletion == Unavailable || (code == RootVolumeRetained && rootDeletion == Retained)
    }

    /** What an exact read during observation puts on record. */
    ghost function Reading(exact: Exact, end: bool): seq<Event>
      reads this
    {
      match Singular(exact, selected.id)
      case None => []
      case Some(r) => [Reread(r, exact.now)] + (if end then [SeenTerminated] else [])
    }

    method RecordTurn(before: Rotation, queried: Option<nat>)
      requires Valid() && (asked != [] ==> turns != [] && turns[|turns| - 1] == before)
      requires Turned(captured.badMapping, before.volumes, before.next, queried, volumes, nextVolume)
      modifies this`turns, this`asked
      ensures Valid() && InStep() && asked == old(asked) + [queried]
    {
      hide Rotated, Proven, Lawful, SameVolumes, Turned, OnlyKept;
      OneTurnMore(captured.badMapping, turns, asked, before, queried, Rotation(volumes, nextVolume));
      turns := (if asked == [] then [before] else turns) + [Rotation(volumes, nextVolume)];
      asked := asked + [queried];
    }

    /** `observe`: one turn. The end counts as seen exactly when the exact read shows this very instance terminated with
        its deadline; once it was seen every turn is one turn of the rotation. */
    method Observe(exact: Exact, gone: bool) returns (queried: Option<nat>)
      requires Valid() && active && InStep() && forall r | r in exact.records :: Undeleted(r.volumes)
      modifies this`log, this`status, this`terminal, this`state, this`volumes, this`rootDeletion, this`errors,
               this`active, this`nextVolume, this`turns, this`asked, this`seen
      ensures seen == old(seen) + [Look(exact, gone)] && (old(Told()) ==> Told()) && (Unheard() <==> old(Unheard()))
      ensures Valid() && InStep() && Dispatches(log) == old(Dispatches(log)) && old(errors) <= errors
      ensures terminal <==> old(terminal) || (Singular(exact, selected.id).Some?
                            && EndShown(scope, selected, Singular(exact, selected.id).value.resource, exact.now))
      ensures log == old(log) + (if old(terminal) then [] else Reading(exact, terminal))
                     + Question(old(volumes), queried, gone)
      ensures !terminal ==>
                && queried.None? && active && volumes == old(volumes) && rootDeletion == old(rootDeletion)
                && errors == old(errors)
      ensures old(terminal) || !terminal ==> status == old(status) && state == old(state)
      ensures terminal && !old(terminal) ==> status == TerminationObserved && state == Terminated
      ensures if terminal && (old(terminal) || ConsistentMappings(captured, Singular(exact, selected.id).value)) then
                && asked == old(asked) + [queried]
                && Turned(captured.badMapping, old(volumes), old(nextVolume), queried, volumes, nextVolume)
                && Learned(old(volumes), volumes, queried, gone)
                && (active <==> Unsettled(captured.badMapping, volumes))
                && (!active ==> forall v | v in volumes :: v.deletion != NotObserved)
                && RootSettled()
                && Reported(match RootIssue(captured)
                            case Some(code) => Including(old(errors), Problem(selected.id, code))
                            case None => old(errors),
                            errors, old(volumes))
              else queried.None? && asked == old(asked) && nextVolume == old(nextVolume)
      ensures terminal && !old(terminal) && !ConsistentMappings(captured, Singular(exact, selected.id).value) ==>
                && !active && volumes == MergeMappings(old(volumes), Singular(exact, selected.id).value.volumes)
                && errors == old(errors) + [Problem(selected.id, RootVolumeUnverified)] && rootDeletion == Unavailable
      ensures old(Accounted()) ==> Accounted()
    {
      hide Rotated, Proven, Lawful, Dispatches, SameVolumes, Turned, RootIssue, Awaits, OnlyKept, EndShown, Unsettled,
           Learned, Reported, ConsistentMappings, Overruled, MappingsAbsent, RootSettled, Authorised;
      ghost var ended, looks := terminal, seen;
      seen := seen + [Look(exact, gone)];
      queried := LookAt(exact, gone);
      StillTold(looks, exact, gone, ended);
    }

    /** What a turn does with what it was told. */
    method LookAt(exact: Exact, gone: bool) returns (queried: Option<nat>)
      requires Valid() && active && InStep() && forall r | r in exact.records :: Undeleted(r.volumes)
      modifies this`log, this`status, this`terminal, this`state, this`volumes, this`rootDeletion, this`errors,
               this`active, this`nextVolume, this`turns, this`asked
      ensures Unheard() <==> old(Unheard())
      ensures Valid() && InStep() && Dispatches(log) == old(Dispatches(log)) && old(errors) <= errors
      ensures terminal <==> old(terminal) || (Singular(exact, selected.id).Some?
                            && EndShown(scope, selected, Singular(exact, selected.id).value.resource, exact.now))
      ensures log == old(log) + (if old(terminal) then [] else Reading(exact, terminal))
                     + Question(old(volumes), queried, gone)
      ensures !terminal ==>
                && queried.None? && active && volumes == old(volumes) && rootDeletion == old(rootDeletion)
                && errors == old(errors)
      ensures old(terminal) || !terminal ==> status == old(status) && state == old(state)
      ensures terminal && !old(terminal) ==> status == TerminationObserved && state == Terminated
      ensures if terminal && (old(terminal) || ConsistentMappings(captured, Singular(exact, selected.id).value)) then
                && asked == old(asked) + [queried]
                && Turned(captured.badMapping, old(volumes), old(nextVolume), queried, volumes, nextVolume)
                && Learned(old(volumes), volumes, queried, gone)
                && (active <==> Unsettled(captured.badMapping, volumes))
                && (!active ==> forall v | v in volumes :: v.deletion != NotObserved)
                && RootSettled()
                && Reported(match RootIssue(captured)
                            case Some(code) => Including(old(errors), Problem(selected.id, code))
                            case None => old(errors),
                            errors, old(volumes))
              else queried.None? && asked == old(asked) && nextVolume == old(nextVolume)
      ensures terminal && !old(terminal) && !ConsistentMappings(captured, Singular(exact, selected.id).value) ==>
                && !active && volumes == MergeMappings(old(volumes), Singular(exact, selected.id).value.volumes)
                && errors == old(errors) + [Problem(selected.id, RootVolumeUnverified)] && rootDeletion == Unavailable
      ensures old(Accounted()) ==> Accounted()
    {
      hide Rotated, Proven, Lawful, Dispatches, SameVolumes, Turned, RootIssue, Awaits, OnlyKept, EndShown, Unsettled,
           Learned, Reported, ConsistentMappings, Overruled, MappingsAbsent;
      queried := None;
      if !terminal {
        var goOn := SeeEnd(exact);
        if !goOn {
          return;
        }
      }
      queried := ObserveVolumes(gone);
    }

    /** One look more shows the end exactly if it does. */
    lemma StillTold(looks: seq<Look>, exact: Exact, gone: bool, ended: bool)
      requires seen == looks + [Look(exact, gone)] && (terminal <==> ended || Ends(exact))
      ensures (terminal <==>
                 || (given.Some? && Heard(given.value.emitted, given.value.exact) && Ends(given.value.exact))
                 || exists k :: 0 <= k < |seen| && Ends(seen[k].exact))
              <==> ((ended || Ends(exact)) <==>
                 || (given.Some? && Heard(given.value.emitted, given.value.exact) && Ends(given.value.exact))
                 || (exists k :: 0 <= k < |looks| && Ends(looks[k].exact)) || Ends(exact))
    {
      hide EndShown, Singular;
      assert seen[|looks|].exact == exact && forall k | 0 <= k < |looks| :: seen[k] == looks[k];
    }

    /** The part of a turn that follows once the end was seen: the root's diagnosis, and one turn of the rotation. */
    method ObserveVolumes(gone: bool) returns (queried: Option<nat>)
      requires Valid() && active && terminal && InStep()
      modifies this`volumes, this`rootDeletion, this`errors, this`active, this`nextVolume, this`log, this`turns,
               this`asked
      ensures InStep() && asked == old(asked) + [queried]
      ensures Valid() && Dispatches(log) == old(Dispatches(log)) && old(errors) <= errors
      ensures log == old(log) + Question(old(volumes), queried, gone)
      ensures Turned(captured.badMapping, old(volumes), old(nextVolume), queried, volumes, nextVolume)
      ensures Learned(old(volumes), volumes, queried, gone)
      ensures active <==> Unsettled(captured.badMapping, volumes)
      ensures !active ==> forall v | v in volumes :: v.deletion != NotObserved
      ensures RootSettled() && (Unheard() <==> old(Unheard()))
      ensures RootIssue(captured).None? && !active ==> rootDeletion.Deleted?
      ensures RootIssue(captured).Some? ==> errors != []
      ensures Reported(match RootIssue(captured)
                       case Some(code) => Including(old(errors), Problem(selected.id, code))
                       case None => old(errors),
                       errors, old(volumes))
    {
      hide Rotated, Proven, Lawful, Dispatches, SameVolumes, Turned, RootIssue, Awaits, OnlyKept, Unsettled, Learned,
           Reported;
      var code := RootProblem(captured);
      if code.Some? {
        SetRootDiagnostic(code.value);
        if Problem(selected.id, code.value) !in errors {
          AddProblem(code.value);
        }
      }
      RootCodes(captured);
      ghost var vs, errs := volumes, errors;
      queried := TakeTurn(gone);
      ReportedGrows(errs, errors, vs);
      NothingElse(errs, errors, vs, Problem(selected.id, EvidenceUnavailable));
    }
  }

  lemma {:induction false} RootsHeld(vs: seq<Volume>, v: Volume)
    requires v in Roots(vs)
    ensures v in vs && v.root
  {
    if vs[|vs| - 1] != v || !v.root {
      RootsHeld(vs[..|vs| - 1], v);
    }
  }

  /** A worker with a verified root that waits for nothing more has seen that root go. */
  lemma RootFound(captured: Record, vs: seq<Volume>)
    requires RootIssue(captured).None? && SameVolumes(vs, captured.volumes) && !Unsettled(captured.badMapping, vs)
    ensures forall v | v in vs && v.root :: v.deletion.Deleted?
    ensures exists v :: v in vs && v.root
  {
    var root := Roots(captured.volumes)[0];
    RootsHeld(captured.volumes, root);
    OneRoot(captured, vs);
    var k :| 0 <= k < |vs| && captured.volumes[k] == root;
    assert vs[k] in vs && vs[k].root;
    forall v | v in vs && v.root
      ensures v.deletion.Deleted?
    {
      var j :| 0 <= j < |vs| && vs[j] == v;
      assert j == k;
    }
  }

  lemma SameChain(a: seq<Volume>, b: seq<Volume>, c: seq<Volume>)
    requires SameVolumes(a, b) && SameVolumes(b, c)
    ensures SameVolumes(a, c)
  {
  }

  /** Closing the books of a worker with nothing left to wait for changes no turn. */
  lemma NothingAwaited(bad: bool, ws: seq<Volume>, xs: seq<Volume>)
    requires SameVolumes(xs, ws) && !Unsettled(bad, ws)
    requires forall k | 0 <= k < |ws| ::
               xs[k].deletion == if ws[k].deletion.Deleted?
                                    || ws[k].deletion.Retained?
                                 then ws[k].deletion else Unavailable
    ensures forall k | 0 <= k < |xs| :: Awaits(bad, xs[k]) <==> Awaits(bad, ws[k])
    ensures !Unsettled(bad, xs)
  {
    forall k | 0 <= k < |xs|
      ensures Awaits(bad, xs[k]) <==> Awaits(bad, ws[k])
      ensures !(xs[k].flag == Some(true) && !bad && !xs[k].deletion.Deleted?)
    {
      assert ws[k] in ws;
    }
  }

  lemma TurnedOver(bad: bool, vs: seq<Volume>, next: nat, queried: Option<nat>, ws: seq<Volume>, xs: seq<Volume>,
                   after: nat)
    requires Turned(bad, vs, next, queried, ws, after) && |xs| == |ws|
    requires forall k | 0 <= k < |xs| :: Awaits(bad, xs[k]) <==> Awaits(bad, ws[k])
    ensures Turned(bad, vs, next, queried, xs, after)
  {
    hide Awaits;
  }

  lemma {:induction false} RootsHold(vs: seq<Volume>, k: nat)
    requires k < |vs| && vs[k].root
    ensures vs[k] in Roots(vs)
  {
    if k < |vs| - 1 {
      RootsHold(vs[..|vs| - 1], k);
    }
  }

  lemma {:induction false} TwoRoots(vs: seq<Volume>, j: nat, k: nat)
    requires j < k < |vs| && vs[j].root && vs[k].root
    ensures |Roots(vs)| >= 2
  {
    if k < |vs| - 1 {
      TwoRoots(vs[..|vs| - 1], j, k);
    } else {
      RootsHold(vs[..|vs| - 1], j);
    }
  }

  /** With a verified root, exactly one volume is a root, and it is that one. */
  lemma OneRoot(captured: Record, vs: seq<Volume>)
    requires RootIssue(captured).None? && SameVolumes(vs, captured.volumes)
    ensures forall v | v in vs && v.root :: v.id == RootID(captured).value
    ensures forall j, k | 0 <= j < k < |vs| && vs[j].root :: !vs[k].root
  {
    forall v | v in vs && v.root
      ensures v.id == RootID(captured).value
    {
      var k :| 0 <= k < |vs| && vs[k] == v;
      RootsHold(captured.volumes, k);
    }
    forall j, k | 0 <= j < k < |vs| && vs[j].root
      ensures !vs[k].root
    {
      if vs[k].root {
        TwoRoots(captured.volumes, j, k);
      }
    }
  }

  /** A volume whose deletion can be established and is not yet. */
  ghost predicate Awaits(bad: bool, v: Volume) {
    v.flag == Some(true) && !bad && !v.deletion.Deleted? && !v.deletion.Retained?
  }

  /** A volume whose deletion is not settled. */
  ghost predicate Open(v: Volume) {
    !v.deletion.Deleted? && !v.deletion.Retained?
  }

  /** The turn passes over the volume at `k` before it asks about the one it found, or finds none. */
  ghost predicate PassedBy(next: nat, k: nat, queried: Option<nat>, n: nat) {
    queried.None? || Distance(next, k, n) < Distance(next, queried.value, n)
  }

  /** What has been added to the problems says that an open volume is unresolved, each once. */
  ghost predicate Reported(before: seq<Problem>, after: seq<Problem>, vs: seq<Volume>) {
    && before <= after
    && forall j | |before| <= j < |after| ::
         after[j] !in after[..j] && Unresolves(vs, after[j])
  }

  ghost predicate Unresolves(vs: seq<Volume>, p: Problem) {
    exists v :: v in vs && Open(v) && p == Problem(v.id, VolumeUnresolved)
  }

  lemma NothingReported(errors: seq<Problem>, vs: seq<Volume>)
    ensures Reported(errors, errors, vs)
  {
  }

  lemma ReportedMore(a: seq<Problem>, b: seq<Problem>, c: seq<Problem>, vs: seq<Volume>, i: nat)
    requires Reported(a, b, vs) && i < |vs|
    requires c == b || (Open(vs[i]) && c == Including(b, Problem(vs[i].id, VolumeUnresolved)))
    ensures Reported(a, c, vs)
  {
    hide Open;
    assert vs[i] in vs;
    forall j | |a| <= j < |c|
      ensures c[j] !in c[..j] && Unresolves(vs, c[j])
    {
      assert j < |b| ==> c[j] == b[j] && c[..j] == b[..j];
      assert j == |b| ==> c[..j] == b;
    }
  }

  /** Volumes that were passed over, or not touched, wait as before. */
  lemma PassedSame(bad: bool, vs: seq<Volume>, ws: seq<Volume>)
    requires |vs| == |ws| && forall k | 0 <= k < |vs| ::
               ws[k] == vs[k] || (ws[k] == Passed(vs[k]) && !Awaits(bad, vs[k]))
    ensures SameVolumes(ws, vs) && forall k | 0 <= k < |vs| :: Awaits(bad, ws[k]) <==> Awaits(bad, vs[k])
  {
  }

  lemma PendingIsOpen(bad: bool, vs: seq<Volume>)
    requires OnlyKept(vs)
    ensures Unsettled(bad, vs) ==> exists k :: 0 <= k < |vs| && Open(vs[k])
  {
    if v :| v in vs && v.flag == Some(true) && !bad && !v.deletion.Deleted? {
      var k :| 0 <= k < |vs| && vs[k] == v;
    }
  }

  lemma EmptyTurn(bad: bool, vs: seq<Volume>, next: nat, ws: seq<Volume>)
    requires SameVolumes(ws, vs) && (next == 0 || next < |vs|)
    requires forall k | 0 <= k < |vs| :: !Awaits(bad, vs[k]) && !Awaits(bad, ws[k])
    ensures Turned(bad, vs, next, None, ws, next)
  {
  }

  lemma AskedTurn(bad: bool, vs: seq<Volume>, next: nat, i: nat, ws: seq<Volume>, xs: seq<Volume>)
    requires SameVolumes(ws, vs) && i < |vs| && (next == 0 || next < |vs|) && Awaits(bad, vs[i]) && ws[i] == vs[i]
    requires forall k | 0 <= k < |vs| :: Awaits(bad, ws[k]) <==> Awaits(bad, vs[k])
    requires forall k | 0 <= k < |vs| && Distance(next, k, |vs|) < Distance(next, i, |vs|) :: !Awaits(bad, vs[k])
    requires xs == ws || xs == ws[i := ws[i].(deletion := Deleted)]
    ensures SameVolumes(xs, vs)
    ensures Turned(bad, vs, next, Some(i), xs, if i + 1 == |vs| then 0 else i + 1)
  {
    hide Awaits;
  }

  /** A problem is put on record once. */
  ghost function Including(errors: seq<Problem>, p: Problem): (r: seq<Problem>)
    ensures errors <= r && p in r
  {
    if p in errors then errors else errors + [p]
  }

  /** Some volume that goes with its instance was not seen gone. */
  ghost predicate Unsettled(bad: bool, vs: seq<Volume>) {
    exists v :: v in vs && v.flag == Some(true) && !bad && !v.deletion.Deleted?
  }

  /** Only a volume that outlives its instance counts as retained. */
  ghost predicate OnlyKept(vs: seq<Volume>) {
    forall v | v in vs && v.deletion.Retained? :: v.flag == Some(false)
  }

  /** How many places behind `next` a volume stands in the rotation. */
  ghost function Distance(next: nat, k: nat, n: nat): int {
    if k >= next then k - next else k + n - next
  }

  /** One turn of the rotation: it asks about the waiting volume that stands first from `next` on, if there is one,
      and every other volume goes on waiting or not as before. */
  ghost predicate Turned(bad: bool, vs: seq<Volume>, next: nat, queried: Option<nat>, ws: seq<Volume>, after: nat) {
    && |ws| == |vs| && (next == 0 || next < |vs|)
    && match queried
       case None => after == next && forall k | 0 <= k < |vs| :: !Awaits(bad, vs[k]) && !Awaits(bad, ws[k])
       case Some(i) =>
         && i < |vs| && Awaits(bad, vs[i])
         && (forall k | 0 <= k < |vs| && Awaits(bad, vs[k]) :: Distance(next, i, |vs|) <= Distance(next, k, |vs|))
         && (forall k | 0 <= k < |vs| && k != i :: Awaits(bad, ws[k]) <==> Awaits(bad, vs[k]))
         && after == if i + 1 == |vs| then 0 else i + 1
  }

  lemma SameAreSame(vs: seq<Volume>)
    ensures SameVolumes(vs, vs)
  {
  }

  function DeletionOf(flag: Option<bool>): (d: Deletion)
    ensures d == Retained <==> flag == Some(false)
    ensures d == NotObserved <==> flag == Some(true)
    ensures d == Unavailable <==> flag == None
  {
    match flag
    case None => Unavailable
    case Some(goes) => if goes then NotObserved else Retained
  }

  /** What a row itself says of a volume's deletion, which is never that it happened. */
  predicate Undeleted(vs: seq<Volume>) {
    forall v | v in vs :: v.deletion == DeletionOf(v.flag)
  }

  /** A selection with a deadline; every one that is acted on has it. */
  ghost predicate Dated(d: Decision) {
    d.expiresAt.Some? && (d.eligible ==> d.reason == Expired)
  }

  /** The last thing that happened was an exact read of the instance that no longer supports its selection. */
  ghost predicate Overruled(scope: Scope, selected: Decision, log: seq<Event>) {
    && log != [] && log[|log| - 1].Reread? && log[|log| - 1].current.resource.id == selected.id
    && !(Upheld(scope, selected, log[|log| - 1].current.resource, log[|log| - 1].now)
         && !log[|log| - 1].current.resource.state.OtherState?)
  }

  ghost predicate Benign(r: Reason) {
    r in {Expired, ExpiryFuture, ExpiryMissing, ExpiryChanged, AlreadyTerminated, AlreadyTerminating}
  }

  /** `benign`. */
  method IsBenign(r: Reason) returns (b: bool)
    ensures b <==> Benign(r)
  {
    match r
    case Expired | ExpiryFuture | ExpiryMissing | ExpiryChanged | AlreadyTerminated | AlreadyTerminating => return true;
    case _ => return false;
  }

  /** What a fresh reason says: another deadline than the selected one, or what it says of any observation. */
  ghost predicate Explains(scope: Scope, selected: Decision, r: Resource, now: Clock, why: Reason) {
    if why == ExpiryChanged then
      && now.valid && InScope(scope, r) && Inspected(r.tags).Usable? && selected.expiresAt.Some?
      && Inspected(r.tags) != Usable(selected.expiresAt.value)
    else Warrants(scope, r, now, why)
  }

  /** The policy applied to the fresh read: a recheck of a candidate, a plain evaluation of anything else. */
  method Reevaluate(scope: Scope, selected: Decision, r: Resource, now: Clock) returns (d: Decision)
    requires Dated(selected) && r.id == selected.id
    ensures d.state == r.state && (d.eligible <==> d.reason == Expired)
    ensures d.eligible <==> Upheld(scope, selected, r, now) && Live(r.state)
    ensures d.reason == AlreadyTerminated <==> EndShown(scope, selected, r, now)
    ensures d.reason == AlreadyTerminating <==> Upheld(scope, selected, r, now) && r.state.ShuttingDown?
    ensures Explains(scope, selected, r, now, d.reason)
  {
    hide InScope, Inspected;
    if selected.eligible {
      d := Recheck(scope, selected, r, now);
    } else {
      d := Evaluate(scope, r, now);
      if d.expiresAt.Some? && selected.expiresAt.Some? && d.expiresAt != selected.expiresAt {
        d := d.(eligible := false, reason := ExpiryChanged);
      }
    }
  }

  // ---------------------------------------------------------------- fairness of the rotation

  /** Consecutive turns of one worker: `states[n]` is followed by `states[n + 1]`. */
  datatype Rotation = Rotation(volumes: seq<Volume>, next: nat)

  ghost predicate Turns(bad: bool, states: seq<Rotation>, queries: seq<Option<nat>>) {
    && |states| == |queries| + 1
    && forall n | 0 <= n < |queries| ::
         Turned(bad, states[n].volumes, states[n].next, queries[n], states[n + 1].volumes, states[n + 1].next)
  }

  /** What a worker has recorded of its turns, if it had any. */
  ghost predicate Rotated(bad: bool, turns: seq<Rotation>, asked: seq<Option<nat>>) {
    asked == [] || Turns(bad, turns, asked)
  }

  lemma OneTurnMore(bad: bool, turns: seq<Rotation>, asked: seq<Option<nat>>, before: Rotation, queried: Option<nat>,
                    after: Rotation)
    requires Rotated(bad, turns, asked) && (asked != [] ==> turns != [] && turns[|turns| - 1] == before)
    requires Turned(bad, before.volumes, before.next, queried, after.volumes, after.next)
    ensures Rotated(bad, (if asked == [] then [before] else turns) + [after], asked + [queried])
  {
    hide Turned;
  }

  /** A turn that asks about another volume brings a waiting one strictly closer to its own turn. */
  lemma Closer(bad: bool, vs: seq<Volume>, next: nat, i: nat, ws: seq<Volume>, after: nat, j: nat)
    requires Turned(bad, vs, next, Some(i), ws, after) && j < |vs| && Awaits(bad, vs[j]) && i != j
    ensures Awaits(bad, ws[j]) && after < |ws| && Distance(after, j, |ws|) < Distance(next, j, |vs|) < |vs|
  {
    hide Awaits;
  }

  lemma {:induction false} AskedWithin(bad: bool, states: seq<Rotation>, queries: seq<Option<nat>>, j: nat, m: nat)
    requires Turns(bad, states, queries) && m < |queries| && j < |states[m].volumes|
             && Awaits(bad, states[m].volumes[j])
    requires |queries| > m + Distance(states[m].next, j, |states[m].volumes|)
    ensures exists n :: m <= n <= m + Distance(states[m].next, j, |states[m].volumes|) && queries[n] == Some(j)
    decreases |queries| - m
  {
    hide Awaits;
    assert Turned(bad, states[m].volumes, states[m].next, queries[m], states[m + 1].volumes, states[m + 1].next);
    var i := queries[m].value;
    if i != j {
      Closer(bad, states[m].volumes, states[m].next, i, states[m + 1].volumes, states[m + 1].next, j);
      AskedWithin(bad, states, queries, j, m + 1);
    }
  }

  /** The rotation is fair: a volume that waits is asked about within as many turns as the worker has volumes, however
      slow its peers are. */
  lemma RotationIsFair(bad: bool, states: seq<Rotation>, queries: seq<Option<nat>>, j: nat, m: nat)
    requires Turns(bad, states, queries) && m < |queries| && j < |states[m].volumes|
             && Awaits(bad, states[m].volumes[j])
    requires m + |states[m].volumes| <= |queries|
    ensures exists n :: m <= n < m + |states[m].volumes| && queries[n] == Some(j)
  {
    hide Awaits;
    assert Turned(bad, states[m].volumes, states[m].next, queries[m], states[m + 1].volumes, states[m + 1].next);
    AskedWithin(bad, states, queries, j, m);
  }
}
