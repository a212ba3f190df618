/** One cleanup run: scan, freeze, decide, act, observe in rounds, count. Workers touch nothing of one another, so the
    run is told with one worker after the other. */
module CleanupRun {
  import opened Basics
  import opened Expiry
  import opened Cleanup

  /** One page of the inventory. A reservation without instances makes it incomplete, as a failed call does. */
  datatype Page = Page(records: seq<Record>, whole: bool, next: string)

  const MAX_PAGES := 128
  const OBSERVATION_ATTEMPTS := 30

  ghost function RowsOf(pages: seq<Page>): seq<Record> {
    if pages == [] then [] else RowsOf(pages[..|pages| - 1]) + pages[|pages| - 1].records
  }

  ghost predicate OncePerID(records: seq<Record>) {
    forall i, j | 0 <= i < j < |records| && records[i].resource.id != "" ::
      records[i].resource.id != records[j].resource.id
  }

  /** A row as the service returns it says nothing of conflicts, and of deletion only what its flags imply. */
  ghost predicate Fresh(row: Record) {
    !row.conflict && Undeleted(row.volumes)
  }

  /** Where an identity stands first, or the end. */
  ghost function Place(records: seq<Record>, id: string): (n: nat)
    ensures n <= |records| && (n < |records| ==> records[n].resource.id == id)
    ensures forall k | 0 <= k < n :: records[k].resource.id != id
  {
    if records == [] then 0
    else if records[0].resource.id == id then 0 else 1 + Place(records[1..], id)
  }

  /** One row more: a second row of a known identity is dropped if it is the same, and a conflict if not. */
  ghost function Joined(records: seq<Record>, row: Record): seq<Record> {
    var n := Place(records, row.resource.id);
    if row.resource.id == "" || n == |records| then records + [row]
    else if records[n] == row then records
    else
      records[n := records[n].(conflict := true, volumes := MergeMappings(records[n].volumes, row.volumes))]
  }

  ghost function Coalesce(rows: seq<Record>): seq<Record> {
    if rows == [] then [] else Joined(Coalesce(rows[..|rows| - 1]), rows[|rows| - 1])
  }

  /** Two rows of one identity say different things. */
  ghost predicate Disputed(rows: seq<Record>, id: string) {
    exists a, b :: a in rows && b in rows && a.resource.id == id && b.resource.id == id && a != b
  }

  /** What a record says of the rows of its identity: it is their common row, or a conflict that keeps the volumes of
      all of them and the rest of one. */
  ghost predicate Stands(rows: seq<Record>, r: Record) {
    && (exists row :: row in rows && row == r.(conflict := false, volumes := row.volumes))
    && (r.resource.id == "" ==> r in rows)
    && (r.resource.id != "" ==>
          && (r.conflict <==> Disputed(rows, r.resource.id)) && (!r.conflict ==> r in rows)
          && (forall row | row in rows && row.resource.id == r.resource.id :: forall v | v in row.volumes ::
               v in r.volumes)
          && (forall v | v in r.volumes ::
                exists row :: row in rows && row.resource.id == r.resource.id && v in row.volumes))
  }

  ghost predicate Held(records: seq<Record>, row: Record) {
    exists r :: r in records && r.resource.id == row.resource.id
  }

  ghost function Unnamed(rows: seq<Record>): seq<Record> {
    if rows == [] then []
    else Unnamed(rows[..|rows| - 1]) + (if rows[|rows| - 1].resource.id == "" then [rows[|rows| - 1]] else [])
  }

  /** What a discovery makes of its rows: every usable identity once, in a record that stands for all of its rows; rows
      without one are all kept. */
  lemma {:induction false} CoalesceMeans(rows: seq<Record>)
    requires forall row | row in rows :: Fresh(row)
    ensures OncePerID(Coalesce(rows)) && Unnamed(Coalesce(rows)) == Unnamed(rows)
    ensures forall r | r in Coalesce(rows) :: Stands(rows, r) && Undeleted(r.volumes)
    ensures forall row | row in rows :: Held(Coalesce(rows), row)
  {
    hide Stands, Undeleted, Fresh, Joined, Unnamed, Held;
    if rows == [] {
      NothingUnnamed();
    } else {
      var init, row := rows[..|rows| - 1], rows[|rows| - 1];
      assert rows == init + [row];
      CoalesceMeans(init);
      JoinedMeans(init, Coalesce(init), row);
    }
  }

  lemma NothingUnnamed()
    ensures Unnamed([]) == []
  {
  }

  lemma JoinedMeans(rows: seq<Record>, records: seq<Record>, row: Record)
    requires OncePerID(records) && Unnamed(records) == Unnamed(rows) && Fresh(row)
    requires forall x | x in rows :: Held(records, x)
    requires forall r | r in records :: Stands(rows, r) && Undeleted(r.volumes)
    ensures var rs := Joined(records, row);
            && OncePerID(rs) && Unnamed(rs) == Unnamed(rows + [row])
            && (forall x | x in rows + [row] :: Held(rs, x))
            && forall r | r in rs :: Stands(rows + [row], r) && Undeleted(r.volumes)
  {
    hide Stands, Undeleted, Unnamed, Held;
    var n := Place(records, row.resource.id);
    UnnamedMore(rows, row);
    if row.resource.id == "" || n == |records| {
      JoinNew(rows, records, row);
    } else {
      JoinKnown(rows, records, row, n);
    }
  }

  lemma UnnamedMore(rows: seq<Record>, row: Record)
    ensures Unnamed(rows + [row]) == Unnamed(rows) + (if row.resource.id == "" then [row] else [])
  {
    assert (rows + [row])[..|rows|] == rows;
  }

  lemma {:induction false} UnnamedSame(a: seq<Record>, b: seq<Record>)
    requires |a| == |b|
    requires forall k | 0 <= k < |a| ::
               a[k].resource.id == b[k].resource.id && (a[k].resource.id == "" ==> a[k] == b[k])
    ensures Unnamed(a) == Unnamed(b)
  {
    if a != [] {
      UnnamedSame(a[..|a| - 1], b[..|b| - 1]);
    }
  }

  lemma HeldMore(records: seq<Record>, rs: seq<Record>, x: Record)
    requires Held(records, x) && |records| <= |rs|
    requires forall k | 0 <= k < |records| :: rs[k].resource.id == records[k].resource.id
    ensures Held(rs, x)
  {
    var r :| r in records && r.resource.id == x.resource.id;
    var k :| 0 <= k < |records| && records[k] == r;
    assert rs[k] in rs;
  }

  /** A row of another identity takes nothing from a record. */
  lemma StandsMore(rows: seq<Record>, row: Record, r: Record)
    requires Stands(rows, r) && (r.resource.id == "" || row.resource.id != r.resource.id)
    ensures Stands(rows + [row], r)
  {
    var all := rows + [row];
    var x :| x in rows && x == r.(conflict := false, volumes := x.volumes);
    assert forall y :: y in all <==> y in rows || y == row;
    assert x in all;
    if r.resource.id != "" {
      forall v | v in r.volumes
        ensures exists y :: y in all && y.resource.id == r.resource.id && v in y.volumes
      {
        var y :| y in rows && y.resource.id == r.resource.id && v in y.volumes;
        assert y in all;
      }
    }
  }

  lemma JoinNew(rows: seq<Record>, records: seq<Record>, row: Record)
    requires OncePerID(records) && Unnamed(records) == Unnamed(rows) && Fresh(row)
    requires forall x | x in rows :: Held(records, x)
    requires forall r | r in records :: Stands(rows, r) && Undeleted(r.volumes)
    requires row.resource.id == "" || forall r | r in records :: r.resource.id != row.resource.id
    ensures OncePerID(records + [row]) && Unnamed(records + [row]) == Unnamed(rows + [row])
    ensures forall x | x in rows + [row] :: Held(records + [row], x)
    ensures forall r | r in records + [row] :: Stands(rows + [row], r) && Undeleted(r.volumes)
  {
    hide Stands, Undeleted, Unnamed;
    UnnamedMore(rows, row);
    UnnamedMore(records, row);
    var rs := records + [row];
    assert rs[|records|] == row && row in rs;
    forall x | x in rows + [row]
      ensures Held(rs, x)
    {
      if x in rows {
        HeldMore(records, rs, x);
      }
    }
    forall r | r in rs
      ensures Stands(rows + [row], r) && Undeleted(r.volumes)
    {
      if r in records && (r.resource.id == "" || r.resource.id != row.resource.id) {
        StandsMore(rows, row, r);
      } else {
        assert r == row;
        RowStands(rows, records, row);
      }
    }
  }

  /** The first row of an identity stands for itself. */
  lemma RowStands(rows: seq<Record>, records: seq<Record>, row: Record)
    requires Fresh(row) && forall x | x in rows :: Held(records, x)
    requires row.resource.id == "" || forall r | r in records :: r.resource.id != row.resource.id
    ensures Stands(rows + [row], row)
  {
    var all := rows + [row];
    assert all[|rows|] == row;
    assert forall y :: y in all <==> y in rows || y == row;
  }

  lemma JoinKnown(rows: seq<Record>, records: seq<Record>, row: Record, n: nat)
    requires OncePerID(records) && Unnamed(records) == Unnamed(rows) && Fresh(row)
    requires forall x | x in rows :: Held(records, x)
    requires forall r | r in records :: Stands(rows, r) && Undeleted(r.volumes)
    requires n == Place(records, row.resource.id) && n < |records| && row.resource.id != ""
    ensures var rs := Joined(records, row);
            && OncePerID(rs) && Unnamed(rs) == Unnamed(rows + [row])
            && (forall x | x in rows + [row] :: Held(rs, x))
            && forall r | r in rs :: Stands(rows + [row], r) && Undeleted(r.volumes)
  {
    hide Stands, Undeleted, Unnamed;
    var rs := Joined(records, row);
    UnnamedMore(rows, row);
    UnnamedSame(rs, records);
    assert records[n] in records && rs[n] in rs;
    forall x | x in rows + [row]
      ensures Held(rs, x)
    {
      if x in rows {
        HeldMore(records, rs, x);
      }
    }
    forall r | r in rs
      ensures Stands(rows + [row], r) && Undeleted(r.volumes)
    {
      var k :| 0 <= k < |rs| && rs[k] == r;
      if k == n {
        if records[n] == row {
          RepeatedStands(rows, row);
        } else {
          MergedStands(rows, records[n], row);
          MergedUndeleted(records[n].volumes, row.volumes);
        }
      } else {
        assert records[k] in records && r == records[k];
        StandsMore(rows, row, r);
      }
    }
  }

  lemma MergedUndeleted(a: seq<Volume>, b: seq<Volume>)
    requires Undeleted(a) && Undeleted(b)
    ensures Undeleted(MergeMappings(a, b))
  {
  }

  /** A row that repeats a record changes nothing about what it stands for. */
  lemma RepeatedStands(rows: seq<Record>, row: Record)
    requires Stands(rows, row) && row.resource.id != "" && !row.conflict
    ensures Stands(rows + [row], row)
  {
    var all := rows + [row];
    assert all[|rows|] == row;
    assert forall y :: y in all <==> y in rows || y == row;
  }

  /** A record joined with another row of its identity stands for that one too. */
  lemma MergedStands(rows: seq<Record>, known: Record, row: Record)
    requires Stands(rows, known) && known.resource.id == row.resource.id != "" && !row.conflict && known != row
    ensures Stands(rows + [row], known.(conflict := true, volumes := MergeMappings(known.volumes, row.volumes)))
  {
    hide Disputed;
    var all := rows + [row];
    var r := known.(conflict := true, volumes := MergeMappings(known.volumes, row.volumes));
    assert all[|rows|] == row;
    assert forall y :: y in all <==> y in rows || y == row;
    var x :| x in rows && x == known.(conflict := false, volumes := x.volumes);
    assert x in all && x == r.(conflict := false, volumes := x.volumes);
    NowDisputed(rows, known, row);
    forall v | v in r.volumes
      ensures exists y :: y in all && y.resource.id == r.resource.id && v in y.volumes
    {
      if v in known.volumes {
        var y :| y in rows && y.resource.id == known.resource.id && v in y.volumes;
        assert y in all;
      }
    }
  }

  lemma NowDisputed(rows: seq<Record>, known: Record, row: Record)
    requires known.resource.id == row.resource.id && known != row
    requires if known.conflict then Disputed(rows, row.resource.id) else known in rows
    ensures Disputed(rows + [row], row.resource.id)
  {
    var all := rows + [row];
    assert all[|rows|] == row;
    if known.conflict {
      var a, b :| a in rows && b in rows && a.resource.id == row.resource.id && b.resource.id == row.resource.id
                  && a != b;
      assert a in all && b in all;
    } else {
      assert known in all && row in all;
    }
  }

  /** Where an identity was first seen. */
  method FindRecord(records: seq<Record>, id: string) returns (at: nat)
    ensures at == Place(records, id)
  {
    for i := 0 to |records|
      invariant Place(records, id) == i + Place(records[i..], id)
    {
      if records[i].resource.id == id {
        return i;
      }
    }
    return |records|;
  }

  /** One row of a discovery. */
  method AddRow(records: seq<Record>, row: Record) returns (r: seq<Record>)
    ensures r == Joined(records, row)
  {
    if row.resource.id == "" {
      return records + [row];
    }
    var n := FindRecord(records, row.resource.id);
    if n == |records| {
      return records + [row];
    }
    if records[n] == row {
      return records;
    }
    var volumes := Merge(records[n].volumes, row.volumes);
    return records[n := records[n].(conflict := true, volumes := volumes)];
  }

  /** The rows of one page of a discovery. */
  method AddRows(ghost rows: seq<Record>, records: seq<Record>, page: seq<Record>) returns (r: seq<Record>)
    requires records == Coalesce(rows)
    ensures r == Coalesce(rows + page)
  {
    hide Joined;
    r := records;
    assert rows + page[..0] == rows;
    for n := 0 to |page|
      invariant r == Coalesce(rows + page[..n])
    {
      r := AddRow(r, page[n]);
      var next := rows + page[..n + 1];
      assert next == rows + page[..n] + [page[n]] && next[..|next| - 1] == rows + page[..n];
    }
    assert page[..|page|] == page;
  }

  /** The first `n` pages are whole, no more than allowed, and the last of them names no other. */
  ghost predicate WholeScan(pages: seq<Page>, n: nat) {
    0 < n <= |pages| && n <= MAX_PAGES && pages[n - 1].next == "" && forall k | 0 <= k < n :: pages[k].whole
  }

  /** A scan that read the first `n` pages had to read each, and to stop there: at the last page, at one that is not
      whole, at one that names a page again, or because there is none left. */
  ghost predicate Exhausted(pages: seq<Page>, n: nat) {
    && n <= |pages| && n <= MAX_PAGES
    && (forall k | 0 <= k < n - 1 :: Leads(pages, k))
    && (n < |pages| && n < MAX_PAGES ==> n > 0 && !Leads(pages, n - 1))
  }

  /** A whole page that names another one for the first time. */
  ghost predicate Leads(pages: seq<Page>, k: nat)
    requires k < |pages|
  {
    pages[k].whole && pages[k].next != "" && forall j | 0 <= j < k :: pages[j].next != pages[k].next
  }

  /** `scan` for discovery. It is complete exactly if every page was whole and the last one named no other. */
  method Scan(pages: seq<Page>) returns (records: seq<Record>, complete: bool, n: nat)
    ensures n <= |pages| && Exhausted(pages, n) && records == Coalesce(RowsOf(pages[..n]))
    ensures complete <==> WholeScan(pages, n)
  {
    hide Coalesce;
    records, complete, n := [], false, 0;
    NothingScanned();
    var tokens: set<string> := {};
    while n < MAX_PAGES
      invariant n <= |pages| && n <= MAX_PAGES && records == Coalesce(RowsOf(pages[..n])) && !complete
      invariant forall k | 0 <= k < n :: Leads(pages, k) && pages[k].whole
      invariant forall t :: t in tokens <==> exists k :: 0 <= k < n && pages[k].next == t
    {
      if n == |pages| {
        return;
      }
      var page := pages[n];
      records := AddRows(RowsOf(pages[..n]), records, page.records);
      assert pages[..n + 1][..n] == pages[..n];
      n := n + 1;
      if !page.whole {
        return;
      }
      if page.next == "" {
        return records, true, n;
      }
      if page.next in tokens {
        return;
      }
      tokens := tokens + {page.next};
    }
  }

  lemma NothingScanned()
    ensures Coalesce([]) == [] && RowsOf([]) == []
  {
  }

  // ---------------------------------------------------------------- the frozen workers

  ghost predicate Distinct(ws: seq<Worker>) {
    forall i, j | 0 <= i < j < |ws| :: ws[i] != ws[j]
  }

  /** A record that a run at this time may act on: nothing disputes it, and it shows a live instance of the scope whose
      one usable deadline has passed. */
  ghost predicate Expirable(scope: Scope, r: Record, now: Clock) {
    && !r.conflict && now.valid && InScope(scope, r.resource) && Live(r.resource.state)
    && Inspected(r.resource.tags).Usable? && Inspected(r.resource.tags).value.Deadline?
    && Inspected(r.resource.tags).value.nanos <= now.nanos
  }

  ghost function CountExpirable(scope: Scope, records: seq<Record>, now: Clock): nat {
    if records == [] then 0
    else
      CountExpirable(scope, records[..|records| - 1], now)
      + (if Expirable(scope, records[|records| - 1], now) then 1 else 0)
  }

  /** The decision frozen for a record: it is selected exactly if it is expirable, and for what it shows. */
  ghost predicate Selected(w: Worker, scope: Scope, r: Record, now: Clock) {
    && w.scope == scope && w.captured == r && w.selected.id == r.resource.id && w.selected.state == r.resource.state
    && (w.selected.eligible <==> Expirable(scope, r, now))
    && (if r.conflict then w.selected.reason == ResourceInvalid
        else Warrants(scope, r.resource, now, w.selected.reason))
    && (w.selected.expiresAt.Some? <==>
          now.valid && InScope(scope, r.resource) && Inspected(r.resource.tags).Usable?)
    && (w.selected.expiresAt.Some? ==> Inspected(r.resource.tags) == Usable(w.selected.expiresAt.value))
  }

  /** Candidates, and instances that have ended or are ending, are what a complete run follows. */
  ghost predicate Followable(d: Decision) {
    d.eligible || d.reason == AlreadyTerminated || d.reason == AlreadyTerminating
  }

  /** What is reported of an instance before anything is done. */
  ghost function FirstStatus(d: Decision, complete: bool): Status {
    match d.reason
    case Expired => if complete && d.eligible then NotRequested else Skipped
    case AlreadyTerminated => AlreadyGone
    case AlreadyTerminating => AlreadyGoing
    case _ => Skipped
  }

  ghost function FirstProblems(d: Decision): seq<Problem> {
    if Benign(d.reason) then [] else [Problem(d.id, PolicyProblem(d.reason))]
  }

  /** A worker whose instance nothing was done or learned about. */
  ghost predicate Unmoved(w: Worker)
    reads w
  {
    && w.Valid() && !w.active && !w.terminal && w.volumes == w.captured.volumes && w.nextVolume == 0 && w.asked == []
    && w.given.None? && w.seen == [] && Dispatches(w.log) == 0
    && w.state == w.selected.state && w.reason == w.selected.reason && w.eligible == w.selected.eligible
  }

  ghost function FirstDeletion(w: Worker): Deletion {
    if MappingsAbsent(w.captured, w.selected.reason) then Unavailable else NotObserved
  }

  /** A worker as discovery left it. */
  ghost predicate Untouched(w: Worker, complete: bool)
    reads w
  {
    && Unmoved(w) && w.log == [] && w.status == FirstStatus(w.selected, complete)
    && w.rootDeletion == FirstDeletion(w) && w.errors == FirstProblems(w.selected)
       && (Followable(w.selected) ==> Dated(w.selected))
  }

  /** All identities and decisions exist before anything is emitted or dispatched: each record has its own worker, and
      the candidates of a complete scan are its expirable records. */
  method Freeze(scope: Scope, records: seq<Record>, now: Clock, complete: bool)
    returns (ws: seq<Worker>, candidates: nat)
    requires forall r | r in records :: Undeleted(r.volumes)
    ensures |ws| == |records| && Distinct(ws) && fresh(ws)
    ensures candidates == if complete then CountExpirable(scope, records, now) else 0
    ensures forall i | 0 <= i < |ws| :: Untouched(ws[i], complete) && Selected(ws[i], scope, records[i], now)
  {
    hide Expirable, Undeleted, Untouched, Selected;
    ws, candidates := [], 0;
    for n := 0 to |records|
      invariant |ws| == n && Distinct(ws) && fresh(ws)
      invariant candidates == if complete then CountExpirable(scope, records[..n], now) else 0
      invariant forall i | 0 <= i < n :: Untouched(ws[i], complete) && Selected(ws[i], scope, records[i], now)
    {
      var r := records[n];
      assert r in records && records[..n + 1][..n] == records[..n];
      var w, candidate := FreezeOne(scope, r, now, complete);
      candidates := candidates + (if candidate then 1 else 0);
      ws := ws + [w];
    }
    assert records[..|records|] == records;
  }

  method FreezeOne(scope: Scope, r: Record, now: Clock, complete: bool) returns (w: Worker, candidate: bool)
    requires Undeleted(r.volumes)
    ensures fresh(w) && Untouched(w, complete) && Selected(w, scope, r, now)
    ensures candidate <==> complete && Expirable(scope, r, now)
  {
    hide InScope, Inspected, MappingsAbsent, Warrants, Live, Undeleted, Proven, Lawful, Rotated, OnlyKept, SameVolumes;
    var d := Evaluate(scope, r.resource, now);
    if r.conflict {
      d := d.(eligible := false, reason := ResourceInvalid);
    }
    var status := Skipped;
    if d.reason == AlreadyTerminated {
      status := AlreadyGone;
    }
    if d.reason == AlreadyTerminating {
      status := AlreadyGoing;
    }
    candidate := complete && d.eligible;
    if candidate {
      status := NotRequested;
    }
    var absent := HistoricalMappingsAbsent(r, d.reason);
    var benign := IsBenign(d.reason);
    w := new Worker(scope, d, r, status, absent, if benign then [] else [Problem(d.id, PolicyProblem(d.reason))]);
  }

  /** The decision is the first thing on record, and nothing follows it unless it was acknowledged and the worker is to
      be followed; a termination needs an eligible selection; a reason that is not benign stays a problem. */
  ghost predicate Acted(w: Worker, dryRun: bool, complete: bool)
    reads w
  {
    && w.Valid()
    && (w.log != [] ==> !dryRun && w.log[0].Decided?)
    && (|w.log| > 1 || w.active ==> complete && Followable(w.selected) && w.log != [] && w.log[0] == Decided(true))
    && (Dispatches(w.log) > 0 ==> !dryRun && complete && w.selected.eligible && w.log[0] == Decided(true))
    && (!Benign(w.selected.reason) ==> w.errors != [])
  }

  /** What a dry run says of a worker: a candidate with a verified root would be terminated. */
  ghost predicate Advised(w: Worker, complete: bool)
    reads w
  {
    && Unmoved(w) && w.log == []
    && w.status == (if complete && w.selected.eligible && RootIssue(w.captured).None? then WouldTerminate
                    else FirstStatus(w.selected, complete))
    && w.errors == FirstProblems(w.selected) + (if complete && Followable(w.selected) then w.RootComplaint() else [])
    && w.rootDeletion == if complete && Followable(w.selected) && w.RootComplaint() != []
                         then (if w.RootComplaint()[0].code == RootVolumeRetained then Retained else Unavailable)
                         else FirstDeletion(w)
  }

  /** A dry run has advised; otherwise everything that is followed is accounted for, and the rest is as it was. */
  ghost predicate Followed(w: Worker, dryRun: bool, complete: bool)
    reads w
  {
    if dryRun then Advised(w, complete)
    else if complete && Followable(w.selected) then w.log != [] && w.Accounted()
    else w.log != [] && Unmoved(w) && w.status == FirstStatus(w.selected, complete)
  }

  // ---------------------------------------------------------------- what a run is told

  /** What the first pass over one worker is told: whether the decision is put on record, and then the announcement, the
      exact read and the answer of the request. */
  datatype Prep = Prep(acknowledged: bool, emitted: bool, exact: Exact, answer: Dispatch)

  /** What a run is told: for each worker in the first pass, in each round of observation, and when its outcome is put
      on record; whether a wait between rounds fails; whether the clock or the last record fails at the end; and how
      many checks of the caller's context still succeed. */
  datatype World = World(prep: nat -> Prep, looks: (nat, nat) -> Look, recorded: nat -> bool, waits: nat -> bool,
                         late: bool, patience: nat)

  /** What an exact read returns says of deletion only what its flags imply. */
  ghost predicate Plain(e: Exact) {
    forall r | r in e.records :: Undeleted(r.volumes)
  }

  ghost predicate Sane(world: World) {
    (forall i: nat :: Plain(world.prep(i).exact)) && forall r: nat, i: nat :: Plain(world.looks(r, i).exact)
  }

  /** Enough checks for a run over so many workers. */
  ghost function Checks(n: nat): nat {
    2 * n + Spent(OBSERVATION_ATTEMPTS, n) + 2
  }

  /** The checks of so many rounds: one for the round, and one for each worker. */
  ghost function Spent(rounds: nat, n: nat): nat {
    rounds * (n + 1)
  }

  lemma SpentMore(rounds: nat, n: nat)
    ensures Spent(0, n) == 0 && Spent(rounds + 1, n) == Spent(rounds, n) + n + 1
    ensures rounds <= OBSERVATION_ATTEMPTS ==> Spent(rounds, n) <= Spent(OBSERVATION_ATTEMPTS, n)
  {
  }

  /** What the first pass makes of a worker is what it was told: its decision is on record as acknowledged or not, and
      an acknowledged one is prepared exactly if it is to be followed. */
  ghost predicate Begun(w: Worker, dryRun: bool, complete: bool, p: Prep, cancelled: bool)
    reads w
  {
    Opened(w.selected, w.log, w.given, dryRun, complete, p, cancelled)
  }

  ghost predicate Opened(d: Decision, log: seq<Event>, given: Option<Taking>, dryRun: bool, complete: bool, p: Prep,
                         cancelled: bool)
  {
    && (dryRun ==> log == [])
    && (!dryRun ==> log != [] && log[0] == Decided(p.acknowledged))
    && given == if !dryRun && p.acknowledged && complete && Followable(d)
                then Some(Taking(p.emitted, p.exact, cancelled, p.answer)) else None
  }

  /** Whether the first pass prepares a worker. */
  ghost predicate Takes(w: Worker, dryRun: bool, complete: bool, p: Prep) {
    !dryRun && p.acknowledged && complete && Followable(w.selected)
  }

  ghost function TakenUp(ws: seq<Worker>, dryRun: bool, complete: bool, world: World): nat {
    if ws == [] then 0
    else
      var n := |ws| - 1;
      TakenUp(ws[..n], dryRun, complete, world) + (if Takes(ws[n], dryRun, complete, world.prep(n)) then 1 else 0)
  }

  /** Whether some record about the worker was lost in the first pass. */
  ghost predicate Lost(w: Worker, dryRun: bool, p: Prep)
    reads w
  {
    Missed(w.selected, w.captured, w.given, dryRun, p)
  }

  ghost predicate Missed(d: Decision, captured: Record, given: Option<Taking>, dryRun: bool, p: Prep) {
    !dryRun && (!p.acknowledged
                || (given.Some? && d.eligible && RootIssue(captured).None? && !p.emitted))
  }

  /** The turns of observation of a worker were told what the rounds tell of it. */
  ghost predicate SeenFrom(seen: seq<Look>, world: World, i: nat) {
    forall k | 0 <= k < |seen| :: seen[k] == world.looks(k, i)
  }

  /** So many rounds have been told, to a worker that is still active all of them. */
  ghost predicate Reached(seen: seq<Look>, active: bool, world: World, i: nat, attempt: nat) {
    SeenFrom(seen, world, i) && |seen| <= attempt && (active ==> |seen| == attempt)
  }

  lemma NextReached(seen: seq<Look>, active: bool, after: seq<Look>, still: bool, world: World, i: nat, attempt: nat)
    requires Reached(seen, active, world, i, attempt) && (still ==> active)
    requires after == seen + (if active then [world.looks(attempt, i)] else [])
    ensures Reached(after, still, world, i, attempt + 1) && (active ==> |after| == attempt + 1)
  {
  }

  /** A worker as an uninterrupted run leaves it, in terms of what the run was told of it. */
  ghost predicate Attended(w: Worker, dryRun: bool, complete: bool, world: World, i: nat)
    reads w
  {
    && w.Told() && SeenFrom(w.seen, world, i) && Begun(w, dryRun, complete, world.prep(i), false)
    && (w.Unheard() <==> Lost(w, dryRun, world.prep(i)) || (!dryRun && !world.recorded(i)))
  }

  /** A worker behind the first pass, whether the run was cancelled by then or not. */
  ghost predicate Tried(w: Worker, dryRun: bool, complete: bool)
    reads w
  {
    Acted(w, dryRun, complete) && Waits(w) && (w.terminal ==> !dryRun) && w.Told()
  }

  /** A worker that went through the whole first pass. */
  ghost predicate Entered(w: Worker, dryRun: bool, complete: bool, p: Prep)
    reads w
  {
    && Followed(w, dryRun, complete) && Begun(w, dryRun, complete, p, false)
    && (w.Unheard() <==> Lost(w, dryRun, p))
  }

  /** The first pass over one worker: its decision is put on record before anything else; nothing follows it in a dry
      run, after an incomplete scan, or when the record is not acknowledged. */
  method Act(w: Worker, dryRun: bool, complete: bool, p: Prep, patience: nat) returns (left: nat)
    requires Untouched(w, complete) && Plain(p.exact)
    modifies w
    ensures Tried(w, dryRun, complete) && Begun(w, dryRun, complete, p, patience == 0)
    ensures patience > 0 ==> Entered(w, dryRun, complete, p)
    ensures left <= patience <= left + 1
    ensures left > 0 ==> patience == left + (if Takes(w, dryRun, complete, p) then 1 else 0)
  {
    hide Rotated, Proven, Lawful, SameVolumes, RootIssue, OnlyKept, Unsettled, MappingsAbsent, Benign, Authorised,
         Singular, EndShown;
    left := patience;
    HeardOf(w.selected, RootIssue(w.captured));
    if !dryRun {
      w.Note(Decided(p.acknowledged));
      if !p.acknowledged {
        w.AddProblem(EvidenceUnavailable);
        return;
      }
    }
    if !complete {
      return;
    }
    if dryRun {
      Advise(w);
      return;
    }
    if w.selected.eligible || w.selected.reason == AlreadyTerminated || w.selected.reason == AlreadyTerminating {
      left := TakeUp(w, p, patience);
    }
  }

  /** No problem of a selection or of a root is a lost record. */
  lemma HeardOf(d: Decision, code: Option<ProblemCode>)
    ensures Problem(d.id, EvidenceUnavailable) !in FirstProblems(d)
    ensures code.Some? && code.value in {RootVolumeUnverified, RootVolumeRetained} ==>
              Problem(d.id, EvidenceUnavailable) !in FirstProblems(d) + Complaint(d.id, code)
  {
  }

  /** `prepare`, unless the caller has given up by then. */
  method TakeUp(w: Worker, p: Prep, patience: nat) returns (left: nat)
    requires Unmoved(w) && w.log == [Decided(true)] && Dated(w.selected) && Plain(p.exact)
    modifies w`log, w`status, w`state, w`reason, w`eligible, w`volumes, w`rootDeletion, w`errors, w`active, w`terminal,
             w`given
    ensures w.Valid() && w.Accounted() && w.log != [] && w.log[0] == Decided(true) && old(w.errors) <= w.errors
    ensures Dispatches(w.log) > 0 ==> w.selected.eligible
    ensures w.given == Some(Taking(p.emitted, p.exact, patience == 0, p.answer)) && w.Told()
    ensures w.Unheard() <==>
              old(w.Unheard()) || (w.selected.eligible && RootIssue(w.captured).None? && !p.emitted)
    ensures left <= patience <= left + 1 && (left > 0 ==> patience == left + 1)
  {
    hide Rotated, Proven, Lawful, SameVolumes, RootIssue, OnlyKept, Unsettled, MappingsAbsent;
    left := if patience > 0 then patience - 1 else 0;
    ghost var log := w.log;
    w.Prepare(p.emitted, p.exact, patience == 0, p.answer);
    assert w.log[0] == log[0];
  }

  /** A worker before its first turn of observation. */
  ghost predicate Waits(w: Worker)
    reads w
  {
    w.asked == [] && w.seen == []
  }

  /** What a dry run says of one worker. */
  method Advise(w: Worker)
    requires Untouched(w, true)
    modifies w`errors, w`rootDeletion, w`status
    ensures Advised(w, true) && (!Benign(w.selected.reason) ==> w.errors != []) && !w.Unheard() && w.Told()
  {
    hide Rotated, Proven, Lawful, SameVolumes, RootIssue, MappingsAbsent, OnlyKept, Benign;
    var absent := HistoricalMappingsAbsent(w.captured, w.selected.reason);
    AbsentIsEnded(w.captured, w.selected.reason);
    RootCodes(w.captured);
    HeardOf(w.selected, RootIssue(w.captured));
    if absent {
      return;
    }
    if w.selected.eligible || w.selected.reason == AlreadyTerminated || w.selected.reason == AlreadyTerminating {
      var code := RootProblem(w.captured);
      if code.Some? {
        w.AddProblem(code.value);
        w.SetRootDiagnostic(code.value);
      } else if w.selected.eligible {
        w.status := WouldTerminate;
      }
    }
  }

  lemma AbsentIsEnded(r: Record, why: Reason)
    ensures MappingsAbsent(r, why) ==> why == AlreadyTerminated
  {
  }

  /** The workers one after the other, until the run is cancelled. */
  method ActAll(ws: seq<Worker>, dryRun: bool, complete: bool, world: World) returns (left: nat)
    requires Distinct(ws) && Sane(world) && forall i | 0 <= i < |ws| :: Untouched(ws[i], complete)
    modifies ws
    ensures forall i | 0 <= i < |ws| :: Tried(ws[i], dryRun, complete)
    ensures left > 0 ==> forall i | 0 <= i < |ws| :: Entered(ws[i], dryRun, complete, world.prep(i))
    ensures left <= world.patience <= left + 2 * |ws|
    ensures left > 0 ==> world.patience == left + |ws| + TakenUp(ws, dryRun, complete, world)
  {
    hide Untouched, Tried, Begun, Entered, Takes;
    left := world.patience;
    for n := 0 to |ws|
      invariant left <= world.patience <= left + 2 * n
      invariant left > 0 ==> world.patience == left + n + TakenUp(ws[..n], dryRun, complete, world)
      invariant forall k | n <= k < |ws| :: Untouched(ws[k], complete)
      invariant forall k | 0 <= k < n :: Tried(ws[k], dryRun, complete)
      invariant left > 0 ==> forall k | 0 <= k < n :: Entered(ws[k], dryRun, complete, world.prep(k))
    {
      if left == 0 {
        LeftAlone(ws, n, dryRun, complete);
        return;
      }
      assert ws[..n + 1][..n] == ws[..n];
      left := Act(ws[n], dryRun, complete, world.prep(n), left - 1);
    }
    assert ws[..|ws|] == ws;
  }

  lemma LeftAlone(ws: seq<Worker>, n: nat, dryRun: bool, complete: bool)
    requires n <= |ws| && forall k | n <= k < |ws| :: Untouched(ws[k], complete)
    ensures forall k | n <= k < |ws| :: Tried(ws[k], dryRun, complete)
  {
    hide Rotated, Proven, Lawful, SameVolumes, OnlyKept, Benign, MappingsAbsent;
  }

  /** A worker between two turns of observation; one that `entered` loses nothing that the first pass established. */
  ghost predicate Underway(w: Worker, complete: bool, p: Prep, entered: bool)
    reads w
  {
    Acted(w, false, complete) && w.InStep() && w.Told() && (entered ==> Entered(w, false, complete, p))
  }

  /** One observation turn for every active worker, until the run is cancelled. */
  method ObserveAll(ws: seq<Worker>, complete: bool, world: World, round: nat, patience: nat, ghost entered: bool)
    returns (left: nat)
    requires Distinct(ws) && Sane(world)
    requires forall i | 0 <= i < |ws| :: Underway(ws[i], complete, world.prep(i), entered)
    modifies ws
    ensures forall i | 0 <= i < |ws| ::
              Underway(ws[i], complete, world.prep(i), entered) && (ws[i].active ==> old(ws[i].active))
    ensures left <= patience <= left + |ws| && (left > 0 ==> patience == left + |ws|)
    ensures left > 0 ==> forall i | 0 <= i < |ws| ::
              ws[i].seen == old(ws[i].seen) + (if old(ws[i].active) then [world.looks(round, i)] else [])
  {
    hide Underway;
    left := patience;
    for n := 0 to |ws|
      invariant patience == left + n
      invariant forall k | 0 <= k < |ws| :: Underway(ws[k], complete, world.prep(k), entered)
      invariant forall k | 0 <= k < n :: ws[k].active ==> old(ws[k].active)
      invariant forall k | n <= k < |ws| :: ws[k].active == old(ws[k].active) && ws[k].seen == old(ws[k].seen)
      invariant left > 0 ==> forall k | 0 <= k < n ::
                  ws[k].seen == old(ws[k].seen) + (if old(ws[k].active) then [world.looks(round, k)] else [])
    {
      if left == 0 {
        return;
      }
      left := left - 1;
      if ws[n].active {
        ObserveOne(ws[n], complete, world.looks(round, n), world.prep(n), entered);
      }
    }
  }

  method ObserveOne(w: Worker, ghost complete: bool, look: Look, ghost p: Prep, ghost entered: bool)
    requires Underway(w, complete, p, entered) && w.active && Plain(look.exact)
    modifies w
    ensures Underway(w, complete, p, entered) && w.seen == old(w.seen) + [look]
  {
    hide Rotated, Proven, Lawful, SameVolumes, Turned, OnlyKept, EndShown, Unsettled, RootIssue, Reported, Learned,
         ConsistentMappings, MappingsAbsent, Benign, Worker.Told, Worker.Unheard, Missed;
    ghost var before := w.log;
    var _ := w.Observe(look.exact, look.gone);
    FirstEvent(before, w.log);
  }

  lemma FirstEvent(before: seq<Event>, after: seq<Event>)
    requires before <= after && Dispatches(before) == Dispatches(after)
    ensures Dispatches(after) > 0 ==> before != [] && after[0] == before[0]
    ensures before != [] ==> after[0] == before[0]
  {
  }

  /** How a successful run leaves what it follows: withdrawn by fresh evidence, or seen terminated with its root
      gone. */
  ghost predicate Concluded(w: Worker)
    reads w
  {
    w.Withdrawn() || w.Gone()
  }

  /** How an uninterrupted run leaves a worker. */
  ghost predicate Finished(w: Worker, dryRun: bool, complete: bool)
    reads w
  {
    if dryRun then Advised(w, complete)
    else if complete && Followable(w.selected) then w.log != [] && (w.errors == [] ==> Concluded(w))
    else w.log != [] && Unmoved(w) && w.status == FirstStatus(w.selected, complete)
  }

  /** The last pass: what is still open becomes a problem, and so does evidence that cannot be put on record. What has
      become a problem by then is `open`. */
  method Close(w: Worker, dryRun: bool, complete: bool, cancelled: bool, recorded: bool)
    returns (ghost open: seq<Problem>)
    requires Acted(w, dryRun, complete)
    modifies w`errors, w`volumes, w`rootDeletion
    ensures Acted(w, dryRun, complete)
    ensures w.active && !w.terminal ==> Problem(w.selected.id, TerminationUnresolved) in w.errors
    ensures !w.active || !w.terminal ==> w.volumes == old(w.volumes) && w.rootDeletion == old(w.rootDeletion)
    ensures w.errors == open + Closing(w, dryRun, cancelled, recorded)
    ensures !w.active ==> open == old(w.errors)
    ensures w.active && !w.terminal ==> open == old(w.errors) + [Problem(w.selected.id, TerminationUnresolved)]
    ensures w.active && w.terminal ==> Reported(old(w.errors), open, old(w.volumes))
    ensures w.Unheard() <==> old(w.Unheard()) || (!dryRun && !recorded)
    ensures old(Followed(w, dryRun, complete)) && (dryRun ==> !cancelled) ==> Finished(w, dryRun, complete)
  {
    hide Acted, Followed, Finished, Reported, Worker.Told;
    Settle(w, dryRun, complete);
    open := w.errors;
    PutOnRecord(w, dryRun, complete, cancelled, recorded);
  }

  method PutOnRecord(w: Worker, dryRun: bool, ghost complete: bool, cancelled: bool, recorded: bool)
    requires Acted(w, dryRun, complete)
    modifies w`errors
    ensures Acted(w, dryRun, complete) && w.errors == old(w.errors) + Closing(w, dryRun, cancelled, recorded)
    ensures w.Unheard() <==> old(w.Unheard()) || (!dryRun && !recorded)
    ensures old(Finished(w, dryRun, complete)) && (dryRun ==> !cancelled) ==> Finished(w, dryRun, complete)
  {
    hide Rotated, Proven, Lawful, SameVolumes, OnlyKept, Unsettled, RootIssue, Overruled, Benign, MappingsAbsent,
         FirstProblems, Followable;
    if cancelled && w.status == NotRequested {
      w.AddProblem(Interrupted);
    }
    if !dryRun && !recorded {
      w.AddProblem(EvidenceUnavailable);
    }
    assert w.errors == old(w.errors) + Closing(w, dryRun, cancelled, recorded);
  }

  /** What is still open becomes a problem: a request without an end, or each volume that is not known to be gone. */
  method Settle(w: Worker, ghost dryRun: bool, ghost complete: bool)
    requires Acted(w, dryRun, complete)
    modifies w`errors, w`volumes, w`rootDeletion
    ensures Acted(w, dryRun, complete)
    ensures !w.active || !w.terminal ==> w.volumes == old(w.volumes) && w.rootDeletion == old(w.rootDeletion)
    ensures !w.active ==> w.errors == old(w.errors)
    ensures w.active && !w.terminal ==> w.errors == old(w.errors) + [Problem(w.selected.id, TerminationUnresolved)]
    ensures w.active && w.terminal ==> Reported(old(w.errors), w.errors, old(w.volumes))
    ensures w.Unheard() <==> old(w.Unheard())
    ensures old(Followed(w, dryRun, complete)) ==> Finished(w, dryRun, complete)
  {
    hide Rotated, Proven, Lawful, SameVolumes, Dispatches, OnlyKept, Unsettled, RootIssue, Overruled, Benign, Reported,
         MappingsAbsent;
    if w.active {
      if !w.terminal {
        w.AddProblem(TerminationUnresolved);
      } else {
        ghost var vs, errs := w.volumes, w.errors;
        w.UnresolvedVolumes();
        ReportedGrows(errs, w.errors, vs);
        NothingElse(errs, w.errors, vs, Problem(w.selected.id, EvidenceUnavailable));
      }
    }
  }

  /** The problems that a run ends with: an interrupted request, and an outcome that is not on record. */
  ghost function Closing(w: Worker, dryRun: bool, cancelled: bool, recorded: bool): seq<Problem>
    reads w
  {
    (if cancelled && w.status == NotRequested then [Problem(w.selected.id, Interrupted)] else [])
    + (if !dryRun && !recorded then [Problem(w.selected.id, EvidenceUnavailable)] else [])
  }

  method CloseAll(ws: seq<Worker>, dryRun: bool, complete: bool, cancelled: bool, world: World)
    requires Distinct(ws) && forall i | 0 <= i < |ws| :: Worked(ws[i], dryRun, complete)
    requires !cancelled ==> forall i | 0 <= i < |ws| ::
               Entered(ws[i], dryRun, complete, world.prep(i)) && SeenFrom(ws[i].seen, world, i)
    modifies ws
    ensures forall i | 0 <= i < |ws| ::
              Worked(ws[i], dryRun, complete) && ws[i].active == old(ws[i].active) && ws[i].seen == old(ws[i].seen)
    ensures forall i | 0 <= i < |ws| && ws[i].active && !ws[i].terminal ::
              Problem(ws[i].selected.id, TerminationUnresolved) in ws[i].errors
    ensures !cancelled ==> forall i | 0 <= i < |ws| ::
              Finished(ws[i], dryRun, complete) && Attended(ws[i], dryRun, complete, world, i)
    ensures forall i | 0 <= i < |ws| ::
              ws[i].Unheard() <==> old(ws[i].Unheard()) || (!dryRun && !world.recorded(i))
  {
    hide Worked, Entered, Finished, SeenFrom, Attended, Worker.Unheard;
    for n := 0 to |ws|
      invariant forall k | 0 <= k < |ws| ::
                  Worked(ws[k], dryRun, complete) && ws[k].active == old(ws[k].active) && ws[k].seen == old(ws[k].seen)
      invariant forall k | n <= k < |ws| :: ws[k].Unheard() <==> old(ws[k].Unheard())
      invariant !cancelled ==> forall k | n <= k < |ws| ::
                  Entered(ws[k], dryRun, complete, world.prep(k)) && SeenFrom(ws[k].seen, world, k)
      invariant forall k | 0 <= k < n && ws[k].active && !ws[k].terminal ::
                  Problem(ws[k].selected.id, TerminationUnresolved) in ws[k].errors
      invariant !cancelled ==> forall k | 0 <= k < n ::
                  Finished(ws[k], dryRun, complete) && Attended(ws[k], dryRun, complete, world, k)
      invariant forall k | 0 <= k < n ::
                  ws[k].Unheard() <==> old(ws[k].Unheard()) || (!dryRun && !world.recorded(k))
    {
      CloseOne(ws[n], dryRun, complete, cancelled, world, n);
    }
  }

  /** A worker before the last pass. */
  ghost predicate Worked(w: Worker, dryRun: bool, complete: bool)
    reads w
  {
    Acted(w, dryRun, complete) && (w.terminal ==> !dryRun) && w.Told()
  }

  method CloseOne(w: Worker, dryRun: bool, complete: bool, cancelled: bool, world: World, i: nat)
    requires Worked(w, dryRun, complete)
    requires !cancelled ==> Entered(w, dryRun, complete, world.prep(i)) && SeenFrom(w.seen, world, i)
    modifies w`errors, w`volumes, w`rootDeletion
    ensures Worked(w, dryRun, complete)
    ensures w.active && !w.terminal ==> Problem(w.selected.id, TerminationUnresolved) in w.errors
    ensures !cancelled ==> Finished(w, dryRun, complete) && Attended(w, dryRun, complete, world, i)
    ensures w.Unheard() <==> old(w.Unheard()) || (!dryRun && !world.recorded(i))
  {
    hide Acted, Followed, Finished, Opened, Missed, Closing, Reported, Worker.Accords, Worker.Unheard;
    var _ := Close(w, dryRun, complete, cancelled, world.recorded(i));
  }

  // ---------------------------------------------------------------- the result

  /** What is reported of one instance. */
  datatype Outcome = Outcome(id: string, state: State, expiresAt: Option<Value>, eligible: bool, reason: Reason,
                             status: Status, volumes: seq<Volume>, terminal: bool, root: Deletion,
                             errors: seq<Problem>)

  ghost function CountTerminal(os: seq<Outcome>): nat {
    if os == [] then 0 else CountTerminal(os[..|os| - 1]) + (if os[|os| - 1].terminal then 1 else 0)
  }

  ghost function CountCleaned(os: seq<Outcome>): (n: nat)
    ensures n <= CountTerminal(os) <= |os|
  {
    if os == [] then 0
    else
      CountCleaned(os[..|os| - 1]) + (if os[|os| - 1].terminal && os[|os| - 1].root.Deleted? then 1 else 0)
  }

  ghost function CountAdvised(os: seq<Outcome>): nat {
    if os == [] then 0 else CountAdvised(os[..|os| - 1]) + (if os[|os| - 1].status == WouldTerminate then 1 else 0)
  }

  datatype Result = Result(outcomes: seq<Outcome>, candidates: nat, terminated: nat, cleaned: nat, scanComplete: bool,
                           interrupted: bool, failed: bool)

  datatype Exit = Complete | NoCandidates | Failed | Partial | CutShort

  /** Something went wrong that is not an interruption. */
  ghost predicate Marred(r: Result) {
    !r.scanComplete || r.failed || exists o :: o in r.outcomes && o.errors != []
  }

  /** `aggregate`: success means a complete scan and not one problem anywhere. */
  method Aggregate(r: Result, useful: nat) returns (exit: Exit)
    ensures exit == CutShort <==> r.interrupted
    ensures exit == Partial <==> !r.interrupted && Marred(r) && useful > 0
    ensures exit == Failed <==> !r.interrupted && Marred(r) && useful == 0
    ensures exit == NoCandidates <==> !r.interrupted && !Marred(r) && r.candidates == 0 && useful == 0
    ensures exit == Complete <==> !r.interrupted && !Marred(r) && (r.candidates > 0 || useful > 0)
  {
    var bad := !r.scanComplete || r.failed;
    for n := 0 to |r.outcomes|
      invariant bad <==> !r.scanComplete || r.failed || exists k :: 0 <= k < n && r.outcomes[k].errors != []
    {
      bad := bad || r.outcomes[n].errors != [];
    }
    if r.interrupted {
      return CutShort;
    }
    if bad {
      return if useful > 0 then Partial else Failed;
    }
    return if r.candidates == 0 && useful == 0 then NoCandidates else Complete;
  }

  ghost predicate Successful(e: Exit) {
    e == Complete || e == NoCandidates
  }

  ghost function Report(w: Worker): Outcome
    reads w
  {
    Outcome(w.selected.id, w.state, w.selected.expiresAt, w.eligible, w.reason, w.status, w.volumes, w.terminal,
            w.rootDeletion, w.errors)
  }

  /** `finish`: every terminal worker counts, and of those the ones whose root is gone; in a dry run the advice counts
      instead. */
  method Tally(ws: seq<Worker>, dryRun: bool)
    returns (os: seq<Outcome>, terminated: nat, cleaned: nat, useful: nat)
    requires dryRun ==> forall w | w in ws :: !w.terminal
    ensures |os| == |ws| && forall i | 0 <= i < |ws| :: os[i] == Report(ws[i])
    ensures terminated == CountTerminal(os) && cleaned == CountCleaned(os) && cleaned <= terminated
    ensures useful == if dryRun then CountAdvised(os) else cleaned
    ensures dryRun ==> terminated == 0
  {
    os, terminated, cleaned, useful := [], 0, 0, 0;
    for n := 0 to |ws|
      invariant |os| == n && forall i | 0 <= i < n :: os[i] == Report(ws[i])
      invariant terminated == CountTerminal(os) && cleaned == CountCleaned(os)
      invariant useful == if dryRun then CountAdvised(os) else cleaned
      invariant dryRun ==> terminated == 0
    {
      var w := ws[n];
      var o := Outcome(w.selected.id, w.state, w.selected.expiresAt, w.eligible, w.reason, w.status, w.volumes,
                       w.terminal, w.rootDeletion, w.errors);
      assert (os + [o])[..|os|] == os && w in ws;
      if !dryRun && w.terminal {
        terminated := terminated + 1;
        if w.rootDeletion == Deleted {
          cleaned, useful := cleaned + 1, useful + 1;
        }
      }
      if dryRun && w.status == WouldTerminate {
        useful := useful + 1;
      }
      os := os + [o];
    }
  }

  /** `finish`: the result of a run, and its exit. The clock may fail once more, and so may the last record: `late`. */
  method Finish(ws: seq<Worker>, dryRun: bool, complete: bool, candidates: nat, left: nat, waitFailed: bool, late: bool)
    returns (r: Result, exit: Exit)
    requires dryRun ==> forall w | w in ws :: !w.terminal
    ensures r.scanComplete == complete && r.candidates == candidates
    ensures r.failed <==> !complete || waitFailed || late
    ensures r.interrupted <==> left == 0 || waitFailed
    ensures |r.outcomes| == |ws| && forall i | 0 <= i < |ws| :: r.outcomes[i] == Report(ws[i])
    ensures r.terminated == CountTerminal(r.outcomes) && r.cleaned == CountCleaned(r.outcomes)
            && r.cleaned <= r.terminated
    ensures dryRun ==> r.terminated == 0
    ensures exit == CutShort <==> r.interrupted
    ensures exit == Partial <==>
              !r.interrupted && Marred(r) && (if dryRun then CountAdvised(r.outcomes) else r.cleaned) > 0
    ensures exit == NoCandidates <==>
              && !r.interrupted && !Marred(r) && r.candidates == 0
              && (if dryRun then CountAdvised(r.outcomes) else r.cleaned) == 0
    ensures Successful(exit) <==> !r.interrupted && !Marred(r)
  {
    hide Marred;
    var os, terminated, cleaned, useful := Tally(ws, dryRun);
    r := Result(os, candidates, terminated, cleaned, complete, left == 0 || waitFailed,
                !complete || waitFailed || late);
    exit := Aggregate(r, useful);
  }

  // ---------------------------------------------------------------- the whole run

  /** No two terminations of one run name the same instance: each worker sends at most one, and the workers that may
      send any have different identities. */
  ghost predicate OncePerInstance(ws: seq<Worker>)
    reads ws
  {
    && (forall w | w in ws :: Dispatches(w.log) <= 1)
    && forall i, j | 0 <= i < j < |ws| && Dispatches(ws[i].log) > 0 && Dispatches(ws[j].log) > 0 ::
         ws[i].selected.id != ws[j].selected.id
  }

  lemma DistinctTargets(scope: Scope, records: seq<Record>, now: Clock, ws: seq<Worker>, dryRun: bool, complete: bool)
    requires OncePerID(records) && |ws| == |records|
    requires forall i | 0 <= i < |ws| :: Selected(ws[i], scope, records[i], now)
    requires forall w | w in ws :: Acted(w, dryRun, complete)
    ensures OncePerInstance(ws)
  {
    hide Proven, InScope;
    forall i, j | 0 <= i < j < |ws| && Dispatches(ws[i].log) > 0 && Dispatches(ws[j].log) > 0
      ensures ws[i].selected.id != ws[j].selected.id
    {
      assert ws[i] in ws && ws[j] in ws;
      ScopedIdentity(scope, records[i].resource);
    }
    forall w | w in ws
      ensures Dispatches(w.log) <= 1
    {
      assert Acted(w, dryRun, complete);
    }
  }

  lemma ScopedIdentity(scope: Scope, r: Resource)
    requires InScope(scope, r)
    ensures r.id != ""
  {
  }

  /** `Run`. Every scanned record has its own worker, selected exactly if the record is expirable; the candidates of a
      complete scan are the expirable records. Every termination is warranted, and each instance gets at most one; a dry
      run and an incomplete scan send none; a worker counted as cleaned was seen terminated, and its one verified root
      was found gone after that. An uninterrupted dry run advises what it would do; any other leaves alone what it does
      not follow. A run that reports success has left no candidate behind, and nothing that has ended or is ending: each
      was withdrawn by fresh evidence, or is gone with its root. */
  method Run(scope: Scope, now: Clock, verified: bool, pages: seq<Page>, dryRun: bool, world: World)
    returns (r: Result, ws: seq<Worker>, exit: Exit, ghost n: nat, ghost rounds: nat)
    requires Sane(world)
    requires forall p | p in pages :: forall row | row in p.records :: Fresh(row)
    ensures n <= |pages| && (now.valid && verified ==> Exhausted(pages, n))
    ensures r.scanComplete <==> now.valid && verified && WholeScan(pages, n)
    ensures !now.valid || !verified ==> n == 0 && !Successful(exit)
    ensures var records := Coalesce(RowsOf(pages[..n]));
            && |ws| == |records| && (forall i | 0 <= i < |ws| :: Selected(ws[i], scope, records[i], now))
            && r.candidates == if r.scanComplete then CountExpirable(scope, records, now) else 0
    ensures |r.outcomes| == |ws| && forall i | 0 <= i < |ws| :: r.outcomes[i] == Report(ws[i])
    ensures forall w | w in ws :: Acted(w, dryRun, r.scanComplete) && w.Told()
    ensures OncePerInstance(ws)
    ensures dryRun || !r.scanComplete ==> forall w | w in ws :: Dispatches(w.log) == 0
    ensures r.terminated == CountTerminal(r.outcomes) && r.cleaned == CountCleaned(r.outcomes)
            && r.cleaned <= r.terminated
    ensures dryRun ==> r.terminated == 0
    ensures !r.interrupted ==> forall w | w in ws :: Finished(w, dryRun, r.scanComplete)
    ensures !r.interrupted && now.valid && verified ==>
              && Lasted(ws, world, false, rounds)
              && world.patience > |ws| + TakenUp(ws, dryRun, r.scanComplete, world) + Spent(rounds, |ws|) + 1
    ensures !r.interrupted ==> forall i | 0 <= i < |ws| :: Attended(ws[i], dryRun, r.scanComplete, world, i)
    ensures world.patience > Checks(|ws|) && (forall k | 0 <= k < OBSERVATION_ATTEMPTS :: !world.waits(k)) ==>
              !r.interrupted
    ensures !r.scanComplete || world.late ==> r.failed
    ensures r.failed ==> !r.scanComplete || world.late || r.interrupted
    ensures exit == CutShort <==> r.interrupted
    ensures exit == NoCandidates <==>
              && !r.interrupted && !Marred(r) && r.candidates == 0
              && (if dryRun then CountAdvised(r.outcomes) else r.cleaned) == 0
    ensures exit == Partial <==>
              !r.interrupted && Marred(r) && (if dryRun then CountAdvised(r.outcomes) else r.cleaned) > 0
    ensures Successful(exit) <==> !r.interrupted && !Marred(r)
    ensures Successful(exit) ==> r.scanComplete && forall w | w in ws ::
              && w.errors == [] && Benign(w.selected.reason)
              && (Followable(w.selected) ==> if dryRun then Advised(w, true) else Concluded(w))
  {
    hide Acted, Followed, Finished, Concluded, Untouched, Selected, Undeleted, OncePerInstance, Coalesce, Advised,
         Marred, Fresh, Benign, Exhausted, Attended, Worker.Told, Sane, WholeScan, Expirable, CountExpirable, RowsOf,
         CountTerminal, CountCleaned, CountAdvised, Lasted, TakenUp, Spent, Followable;
    ws, n, rounds := [], 0, 0;
    NothingScanned();
    NothingExpires(scope, now);
    if !now.valid || !verified {
      NothingActed(ws);
      r, exit := Finish(ws, dryRun, false, 0, world.patience, false, world.late);
      MarredAnyway(r);
      return;
    }
    var records, complete, read := Scan(pages);
    n := read;
    RowsFresh(pages, n);
    CoalesceMeans(RowsOf(pages[..n]));
    r, ws, exit, rounds := Handle(scope, records, now, complete, dryRun, world);
  }

  /** The rest of `Run`, for the records of the scan. */
  method Handle(scope: Scope, records: seq<Record>, now: Clock, complete: bool, dryRun: bool, world: World)
    returns (r: Result, ws: seq<Worker>, exit: Exit, ghost rounds: nat)
    requires Sane(world) && OncePerID(records) && forall r | r in records :: Undeleted(r.volumes)
    ensures r.scanComplete == complete && |ws| == |records|
    ensures forall i | 0 <= i < |ws| :: Selected(ws[i], scope, records[i], now)
    ensures r.candidates == if r.scanComplete then CountExpirable(scope, records, now) else 0
    ensures |r.outcomes| == |ws| && forall i | 0 <= i < |ws| :: r.outcomes[i] == Report(ws[i])
    ensures forall w | w in ws :: Acted(w, dryRun, r.scanComplete) && w.Told()
    ensures OncePerInstance(ws)
    ensures dryRun || !r.scanComplete ==> forall w | w in ws :: Dispatches(w.log) == 0
    ensures r.terminated == CountTerminal(r.outcomes) && r.cleaned == CountCleaned(r.outcomes)
            && r.cleaned <= r.terminated
    ensures dryRun ==> r.terminated == 0
    ensures !r.interrupted ==> forall w | w in ws :: Finished(w, dryRun, r.scanComplete)
    ensures !r.interrupted ==>
              && Lasted(ws, world, false, rounds)
              && world.patience > |ws| + TakenUp(ws, dryRun, r.scanComplete, world) + Spent(rounds, |ws|) + 1
    ensures !r.interrupted ==> forall i | 0 <= i < |ws| :: Attended(ws[i], dryRun, r.scanComplete, world, i)
    ensures world.patience > Checks(|ws|) && (forall k | 0 <= k < OBSERVATION_ATTEMPTS :: !world.waits(k)) ==>
              !r.interrupted
    ensures !r.scanComplete || world.late ==> r.failed
    ensures r.failed ==> !r.scanComplete || world.late || r.interrupted
    ensures exit == CutShort <==> r.interrupted
    ensures exit == NoCandidates <==>
              && !r.interrupted && !Marred(r) && r.candidates == 0
              && (if dryRun then CountAdvised(r.outcomes) else r.cleaned) == 0
    ensures exit == Partial <==>
              !r.interrupted && Marred(r) && (if dryRun then CountAdvised(r.outcomes) else r.cleaned) > 0
    ensures Successful(exit) <==> !r.interrupted && !Marred(r)
    ensures Successful(exit) ==> r.scanComplete && forall w | w in ws ::
              && w.errors == [] && Benign(w.selected.reason)
              && (Followable(w.selected) ==> if dryRun then Advised(w, true) else Concluded(w))
  {
    hide Worked, Acted, Finished, Concluded, Untouched, Selected, OncePerInstance, Advised, Marred, Benign, Attended,
         Worker.Told,
         Sane, Expirable, CountExpirable, CountTerminal, CountCleaned, CountAdvised, Lasted, TakenUp, Spent,
         Followable, Undeleted, OncePerID;
    var candidates;
    ws, candidates := Freeze(scope, records, now, complete);
    var left, waitFailed;
    left, waitFailed, rounds := Pursue(ws, dryRun, complete, world);
    WhatWorked(ws, dryRun, complete);
    DistinctTargets(scope, records, now, ws, dryRun, complete);
    NoneSent(ws, dryRun, complete);
    r, exit := Finish(ws, dryRun, complete, candidates, left, waitFailed, world.late);
    if Successful(exit) {
      NotMarred(r);
      NoErrors(ws, r.outcomes, dryRun);
    }
  }

  lemma NothingExpires(scope: Scope, now: Clock)
    ensures CountExpirable(scope, [], now) == 0
  {
  }

  lemma MarredAnyway(r: Result)
    requires r.failed
    ensures Marred(r)
  {
  }

  lemma NotMarred(r: Result)
    requires !Marred(r)
    ensures r.scanComplete && forall o | o in r.outcomes :: o.errors == []
  {
  }

  lemma {:induction false} RowsFresh(pages: seq<Page>, n: nat)
    requires n <= |pages| && forall p | p in pages :: forall row | row in p.records :: Fresh(row)
    ensures forall row | row in RowsOf(pages[..n]) :: Fresh(row)
  {
    hide Fresh;
    if n > 0 {
      assert pages[..n][..n - 1] == pages[..n - 1] && pages[n - 1] in pages;
      RowsFresh(pages, n - 1);
    }
  }

  /** Everything between the frozen decisions and the result. */
  method Pursue(ws: seq<Worker>, dryRun: bool, complete: bool, world: World)
    returns (left: nat, waitFailed: bool, ghost rounds: nat)
    requires Distinct(ws) && Sane(world) && forall i | 0 <= i < |ws| :: Untouched(ws[i], complete)
    modifies ws
    ensures forall i | 0 <= i < |ws| :: Worked(ws[i], dryRun, complete)
    ensures left > 0 ==> forall i | 0 <= i < |ws| ::
              Finished(ws[i], dryRun, complete) && Attended(ws[i], dryRun, complete, world, i)
    ensures left > 0 ==>
              && Lasted(ws, world, waitFailed, rounds)
              && world.patience == left + |ws| + TakenUp(ws, dryRun, complete, world) + Spent(rounds, |ws|) + 1
    ensures left <= world.patience < left + Checks(|ws|)
    ensures waitFailed ==> exists k :: 0 <= k < OBSERVATION_ATTEMPTS && world.waits(k)
  {
    hide Worked, Entered, Finished, SeenFrom, Attended, Untouched, Sane, TakenUp, Spent, Worker.Unheard;
    left, waitFailed, rounds := Work(ws, dryRun, complete, world);
    var cancelled := left == 0;
    left := if cancelled then 0 else left - 1;
    CloseAll(ws, dryRun, complete, cancelled, world);
  }

  /** The first pass and the rounds. */
  method Work(ws: seq<Worker>, dryRun: bool, complete: bool, world: World)
    returns (left: nat, waitFailed: bool, ghost rounds: nat)
    requires Distinct(ws) && Sane(world) && forall i | 0 <= i < |ws| :: Untouched(ws[i], complete)
    modifies ws
    ensures forall i | 0 <= i < |ws| :: Worked(ws[i], dryRun, complete)
    ensures left > 0 ==> forall i | 0 <= i < |ws| ::
              Entered(ws[i], dryRun, complete, world.prep(i)) && SeenFrom(ws[i].seen, world, i)
    ensures left > 0 ==>
              && Lasted(ws, world, waitFailed, rounds)
              && world.patience == left + |ws| + TakenUp(ws, dryRun, complete, world) + Spent(rounds, |ws|)
    ensures left <= world.patience <= left + 2 * |ws| + Spent(OBSERVATION_ATTEMPTS, |ws|)
    ensures waitFailed ==> exists k :: 0 <= k < OBSERVATION_ATTEMPTS && world.waits(k)
  {
    hide Tried, Entered, Untouched, Underway, Sane, TakenUp, Spent, Worked, Lasted;
    waitFailed, rounds := false, 0;
    left := ActAll(ws, dryRun, complete, world);
    AllTried(ws, dryRun, complete);
    if !dryRun {
      ghost var entered := left > 0;
      ReadyToObserve(ws, complete, world, entered);
      left, waitFailed, rounds := Rounds(ws, complete, world, left, entered);
      AllObserved(ws, complete, world, entered);
    } else if left > 0 {
      AdvisedIdle(ws, complete, world);
    }
  }

  lemma WhatWorked(ws: seq<Worker>, dryRun: bool, complete: bool)
    requires forall i | 0 <= i < |ws| :: Worked(ws[i], dryRun, complete)
    ensures forall w | w in ws :: Acted(w, dryRun, complete) && (w.terminal ==> !dryRun) && w.Told()
  {
    hide Acted, Worker.Told;
  }

  lemma AllTried(ws: seq<Worker>, dryRun: bool, complete: bool)
    requires forall i | 0 <= i < |ws| :: Tried(ws[i], dryRun, complete)
    ensures forall i | 0 <= i < |ws| :: Worked(ws[i], dryRun, complete) && ws[i].seen == []
  {
    hide Acted, Worker.Told;
  }

  lemma ReadyToObserve(ws: seq<Worker>, complete: bool, world: World, entered: bool)
    requires forall i | 0 <= i < |ws| :: Tried(ws[i], false, complete)
    requires entered ==> forall i | 0 <= i < |ws| :: Entered(ws[i], false, complete, world.prep(i))
    ensures forall i | 0 <= i < |ws| :: Underway(ws[i], complete, world.prep(i), entered)
  {
    hide Acted, Entered, Worker.Told;
  }

  lemma AllObserved(ws: seq<Worker>, complete: bool, world: World, entered: bool)
    requires forall i | 0 <= i < |ws| :: Underway(ws[i], complete, world.prep(i), entered)
    ensures forall i | 0 <= i < |ws| :: Worked(ws[i], false, complete)
    ensures entered ==> forall i | 0 <= i < |ws| :: Entered(ws[i], false, complete, world.prep(i))
  {
    hide Acted, Entered, Worker.Told;
  }

  lemma AdvisedIdle(ws: seq<Worker>, complete: bool, world: World)
    requires forall i | 0 <= i < |ws| :: Entered(ws[i], true, complete, world.prep(i)) && ws[i].seen == []
    ensures Lasted(ws, world, false, 0) && Spent(0, |ws|) == 0
    ensures forall i | 0 <= i < |ws| :: SeenFrom(ws[i].seen, world, i)
  {
    hide RootIssue, Begun, Lost, Worker.Unheard;
  }

  /** The rounds of observation, until nothing is active, the budget is used up, or the run is cancelled: what is active
      at the end has had its turn in every round of the budget. */
  method Rounds(ws: seq<Worker>, complete: bool, world: World, patience: nat, ghost entered: bool)
    returns (left: nat, waitFailed: bool, ghost rounds: nat)
    requires Distinct(ws) && Sane(world)
    requires forall i | 0 <= i < |ws| :: Underway(ws[i], complete, world.prep(i), entered) && ws[i].seen == []
    modifies ws
    ensures forall i | 0 <= i < |ws| :: Underway(ws[i], complete, world.prep(i), entered)
    ensures left > 0 ==> forall i | 0 <= i < |ws| :: SeenFrom(ws[i].seen, world, i)
    ensures left > 0 ==> Lasted(ws, world, waitFailed, rounds) && patience == left + Spent(rounds, |ws|)
    ensures left <= patience <= left + Spent(OBSERVATION_ATTEMPTS, |ws|)
    ensures waitFailed ==> exists k :: 0 <= k < OBSERVATION_ATTEMPTS && world.waits(k)
  {
    hide Underway, Sane, Spent, Lasted, Reached;
    NoneReached(ws, world);
    left, waitFailed := patience, false;
    var attempt := 0;
    rounds := 0;
    SpentMore(0, |ws|);
    while attempt < OBSERVATION_ATTEMPTS && left > 0 && !waitFailed && exists w :: w in ws && w.active
      invariant attempt <= OBSERVATION_ATTEMPTS && left <= patience <= left + Spent(attempt, |ws|)
      invariant waitFailed ==> exists k :: 0 <= k < OBSERVATION_ATTEMPTS && world.waits(k)
      invariant forall i | 0 <= i < |ws| :: Underway(ws[i], complete, world.prep(i), entered)
      invariant left > 0 ==> forall i | 0 <= i < |ws| :: Reached(ws[i].seen, ws[i].active, world, i, attempt)
      invariant left > 0 ==> patience == left + Spent(attempt, |ws|)
      invariant left > 0 && attempt > 0 ==> exists i :: 0 <= i < |ws| && |ws[i].seen| == attempt
      invariant forall k | 0 < k < attempt :: !world.waits(k)
      invariant waitFailed ==> 0 < attempt < OBSERVATION_ATTEMPTS && world.waits(attempt) && Busy(ws)
      invariant 0 < attempt < OBSERVATION_ATTEMPTS && !waitFailed && Busy(ws) ==> !world.waits(attempt)
      decreases OBSERVATION_ATTEMPTS - attempt
    {
      left := Round(ws, complete, world, attempt, left, entered);
      SpentMore(attempt, |ws|);
      attempt := attempt + 1;
      if attempt < OBSERVATION_ATTEMPTS && exists w :: w in ws && w.active {
        waitFailed := world.waits(attempt);
      }
    }
    SpentMore(attempt, |ws|);
    rounds := attempt;
    if left > 0 {
      NowLasted(ws, world, waitFailed, attempt);
    }
  }

  lemma NoneReached(ws: seq<Worker>, world: World)
    requires forall i | 0 <= i < |ws| :: ws[i].seen == []
    ensures forall i | 0 <= i < |ws| :: Reached(ws[i].seen, ws[i].active, world, i, 0)
  {
  }

  lemma NowLasted(ws: seq<Worker>, world: World, waitFailed: bool, attempt: nat)
    requires attempt <= OBSERVATION_ATTEMPTS && forall k | 0 < k < attempt :: !world.waits(k)
    requires forall i | 0 <= i < |ws| :: Reached(ws[i].seen, ws[i].active, world, i, attempt)
    requires attempt > 0 ==> exists i :: 0 <= i < |ws| && |ws[i].seen| == attempt
    requires waitFailed <==> Busy(ws) && 0 < attempt < OBSERVATION_ATTEMPTS && world.waits(attempt)
    requires Busy(ws) ==> waitFailed || attempt == OBSERVATION_ATTEMPTS
    ensures Lasted(ws, world, waitFailed, attempt) && forall i | 0 <= i < |ws| :: SeenFrom(ws[i].seen, world, i)
  {
  }

  ghost predicate Busy(ws: seq<Worker>)
    reads ws
  {
    exists w :: w in ws && w.active
  }

  /** The rounds of a run that was not cancelled. What is active had its turn in each, and nothing had more; they end
      because nothing is active, because the budget is used up, or because a wait failed, and no wait before did. */
  ghost predicate Lasted(ws: seq<Worker>, world: World, waitFailed: bool, rounds: nat)
    reads ws
  {
    && rounds <= OBSERVATION_ATTEMPTS
    && (forall i | 0 <= i < |ws| :: |ws[i].seen| <= rounds && (ws[i].active ==> |ws[i].seen| == rounds))
    && (rounds > 0 ==> exists i :: 0 <= i < |ws| && |ws[i].seen| == rounds)
    && (forall k | 0 < k < rounds :: !world.waits(k))
    && (waitFailed <==> Busy(ws) && 0 < rounds < OBSERVATION_ATTEMPTS && world.waits(rounds))
    && (Busy(ws) ==> waitFailed || rounds == OBSERVATION_ATTEMPTS)
  }

  /** One round: a check of the caller's context, and a turn for every active worker. */
  method Round(ws: seq<Worker>, complete: bool, world: World, attempt: nat, patience: nat, ghost entered: bool)
    returns (left: nat)
    requires patience > 0 && Distinct(ws) && Sane(world)
    requires forall i | 0 <= i < |ws| :: Underway(ws[i], complete, world.prep(i), entered)
    requires forall i | 0 <= i < |ws| :: Reached(ws[i].seen, ws[i].active, world, i, attempt)
    modifies ws
    ensures forall i | 0 <= i < |ws| :: Underway(ws[i], complete, world.prep(i), entered)
    ensures left > 0 ==> forall i | 0 <= i < |ws| :: Reached(ws[i].seen, ws[i].active, world, i, attempt + 1)
    ensures left <= patience <= left + |ws| + 1 && (left > 0 ==> patience == left + |ws| + 1)
    ensures left > 0 ==> forall i | 0 <= i < |ws| && old(ws[i].active) :: |ws[i].seen| == attempt + 1
  {
    hide Underway, Reached, Sane;
    left := ObserveAll(ws, complete, world, attempt, patience - 1, entered);
    forall i | left > 0 && 0 <= i < |ws|
      ensures Reached(ws[i].seen, ws[i].active, world, i, attempt + 1)
      ensures old(ws[i].active) ==> |ws[i].seen| == attempt + 1
    {
      NextReached(old(ws[i].seen), old(ws[i].active), ws[i].seen, ws[i].active, world, i, attempt);
    }
  }

  lemma NoErrors(ws: seq<Worker>, os: seq<Outcome>, dryRun: bool)
    requires |os| == |ws| && (forall i | 0 <= i < |ws| :: os[i] == Report(ws[i])) && forall o | o in os ::
               o.errors == []
    requires forall w | w in ws :: Acted(w, dryRun, true) && Finished(w, dryRun, true)
    ensures forall w | w in ws ::
              && w.errors == [] && Benign(w.selected.reason)
              && (Followable(w.selected) ==> if dryRun then Advised(w, true) else Concluded(w))
  {
    hide Rotated, Proven, Lawful, RootIssue, Benign, Concluded, Advised;
    forall w | w in ws
      ensures w.errors == [] && Benign(w.selected.reason)
      ensures Followable(w.selected) ==> if dryRun then Advised(w, true) else Concluded(w)
    {
      var i :| 0 <= i < |ws| && ws[i] == w;
      assert os[i] in os;
    }
  }

  lemma NothingActed(ws: seq<Worker>)
    requires ws == []
    ensures OncePerInstance(ws)
  {
  }

  lemma NoneSent(ws: seq<Worker>, dryRun: bool, complete: bool)
    requires forall w | w in ws :: Acted(w, dryRun, complete)
    ensures dryRun || !complete ==> forall w | w in ws :: Dispatches(w.log) == 0
  {
    hide Rotated, Proven, Lawful;
  }

  /** What stands behind any termination of a run. */
  lemma TerminationHasEvidence(w: Worker, dryRun: bool, complete: bool, n: nat)
    requires Acted(w, dryRun, complete) && n < |w.log| && w.log[n].Dispatched?
    ensures !dryRun && complete && w.selected.eligible && w.log[0] == Decided(true)
    ensures Warranted(w.scope, w.selected, w.captured, w.log, n)
    ensures forall m | 0 <= m < |w.log| && w.log[m].Dispatched? :: m == n
  {
    hide Proven, Warranted;
    assert Backed(w.scope, w.selected, w.captured, w.log, n);
    CountOne(w.log, n);
    forall m | 0 <= m < |w.log| && w.log[m].Dispatched?
      ensures m == n
    {
      if m < n {
        CountTwo(w.log, m, n);
      } else if n < m {
        CountTwo(w.log, n, m);
      }
    }
  }

  lemma {:induction false} CountOne(log: seq<Event>, n: nat)
    requires n < |log| && log[n].Dispatched?
    ensures Dispatches(log) >= 1
  {
    if n < |log| - 1 {
      CountOne(log[..|log| - 1], n);
    }
  }

  lemma {:induction false} CountTwo(log: seq<Event>, m: nat, n: nat)
    requires m < n < |log| && log[m].Dispatched? && log[n].Dispatched?
    ensures Dispatches(log) >= 2
  {
    if n < |log| - 1 {
      CountTwo(log[..|log| - 1], m, n);
    } else {
      CountOne(log[..|log| - 1], m);
    }
  }

  /** What stands behind any worker that counts as cleaned: an exact read of the very instance, terminated and with the
      selected deadline, and after it an answer that its one verified root is gone. */
  lemma CleanedHasEvidence(w: Worker, dryRun: bool, complete: bool) returns (read: nat, asked: nat)
    requires Acted(w, dryRun, complete) && Report(w).root.Deleted?
    ensures w.terminal && RootID(w.captured).Some?
    ensures read + 1 < asked < |w.log| && w.log[asked] == Queried(RootID(w.captured).value, true)
    ensures w.log[read].Reread? && w.log[read].current.resource.id == w.selected.id
    ensures EndShown(w.scope, w.selected, w.log[read].current.resource, w.log[read].now)
  {
    hide RootID, EndShown, Warranted;
    var i, j :| 0 <= i < j < |w.log| && w.log[i].SeenTerminated? && w.log[j] == Queried(RootID(w.captured).value, true);
    assert Backed(w.scope, w.selected, w.captured, w.log, i);
    read, asked := i - 1, j;
    SameIdentity(w.scope, w.selected, w.log[read].current.resource, w.log[read].now);
  }

  /** In any run, a volume that a worker still waits for is asked about within as many of its turns as it has volumes.
      */
  lemma RunIsFair(w: Worker, dryRun: bool, complete: bool, j: nat, m: nat)
    requires Acted(w, dryRun, complete) && m < |w.asked| && |w.turns| == |w.asked| + 1 && j < |w.turns[m].volumes|
    requires Awaits(w.captured.badMapping, w.turns[m].volumes[j]) && m + |w.turns[m].volumes| <= |w.asked|
    ensures exists n :: m <= n < m + |w.turns[m].volumes| && w.asked[n] == Some(j)
  {
    hide Proven, Lawful, SameVolumes, OnlyKept;
    RotationIsFair(w.captured.badMapping, w.turns, w.asked, j, m);
  }

  lemma SameIdentity(scope: Scope, selected: Decision, r: Resource, now: Clock)
    requires EndShown(scope, selected, r, now)
    ensures r.id == selected.id
  {
  }
}
