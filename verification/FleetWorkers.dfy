/** Exact inspection of known workers: whatever the answers say, no identity and no volume mapping is dropped. */
module FleetWorkers {
  import opened Basics
  import opened LaunchTypes

  /** What makes two volume records the same mapping: everything but its current deletion flag. */
  datatype Mapping = Mapping(id: string, device: string, root: bool)

  ghost function MappingOf(v: Volume): Mapping {
    Mapping(v.id, v.device, v.root)
  }

  ghost function Mappings(vs: seq<Volume>): set<Mapping> {
    set v | v in vs :: MappingOf(v)
  }

  ghost predicate OneEach(vs: seq<Volume>) {
    forall i, j | 0 <= i < j < |vs| :: MappingOf(vs[i]) != MappingOf(vs[j])
  }

  /** The record a list holds last for a mapping. */
  ghost function Latest(vs: seq<Volume>, m: Mapping): Option<Volume> {
    if vs == [] then None
    else if MappingOf(vs[|vs| - 1]) == m then Some(vs[|vs| - 1])
    else Latest(vs[..|vs| - 1], m)
  }

  /** The place of the first record of a mapping, if there is one. */
  method FindMapping(vs: seq<Volume>, m: Mapping) returns (at: nat)
    ensures at == PlaceOf(vs, m)
  {
    for i := 0 to |vs|
      invariant PlaceOf(vs, m) == i + PlaceOf(vs[i..], m)
    {
      if vs[i].id == m.id && vs[i].device == m.device && vs[i].root == m.root {
        return i;
      }
    }
    return |vs|;
  }

  /** Where a mapping stands first, or the end. */
  ghost function PlaceOf(vs: seq<Volume>, m: Mapping): (n: nat)
    ensures n <= |vs| && (n < |vs| ==> MappingOf(vs[n]) == m)
    ensures forall k | 0 <= k < n :: MappingOf(vs[k]) != m
  {
    if vs == [] || MappingOf(vs[0]) == m then 0 else 1 + PlaceOf(vs[1..], m)
  }

  ghost function Put(vs: seq<Volume>, v: Volume): seq<Volume> {
    var n := PlaceOf(vs, MappingOf(v));
    if n < |vs| then vs[n := v] else vs + [v]
  }

  ghost function Merged(known: seq<Volume>, observed: seq<Volume>): seq<Volume> {
    if observed == [] then known else Put(Merged(known, observed[..|observed| - 1]), observed[|observed| - 1])
  }

  /** One observed volume: it takes the place of its earlier record, or is added. */
  method PutVolume(vs: seq<Volume>, v: Volume) returns (r: seq<Volume>)
    ensures r == Put(vs, v) && Mappings(r) == Mappings(vs) + {MappingOf(v)} && v in r
    ensures OneEach(vs) ==> OneEach(r) && forall w | w in r && MappingOf(w) != MappingOf(v) :: w in vs
  {
    var at := FindMapping(vs, Mapping(v.id, v.device, v.root));
    if at < |vs| {
      r := vs[at := v];
      assert forall k | 0 <= k < |vs| :: MappingOf(r[k]) == MappingOf(vs[k]);
      SameMappings(vs, r);
      assert r[at] == v;
    } else {
      r := vs + [v];
      assert Mappings(r) == Mappings(vs) + {MappingOf(v)};
      forall i, j | OneEach(vs) && 0 <= i < j < |r|
        ensures MappingOf(r[i]) != MappingOf(r[j])
      {
        if j == |vs| {
          assert MappingOf(r[i]) in Mappings(vs);
        }
      }
    }
  }

  lemma SameMappings(a: seq<Volume>, b: seq<Volume>)
    requires |a| == |b| && forall k | 0 <= k < |a| :: MappingOf(a[k]) == MappingOf(b[k])
    ensures Mappings(a) == Mappings(b)
  {
    forall m | m in Mappings(a)
      ensures m in Mappings(b)
    {
      var k :| 0 <= k < |a| && MappingOf(a[k]) == m;
      assert b[k] in b;
    }
    forall m | m in Mappings(b)
      ensures m in Mappings(a)
    {
      var k :| 0 <= k < |b| && MappingOf(b[k]) == m;
      assert a[k] in a;
    }
  }

  /** A merged list says of every mapping what was observed last, or else what was known. */
  ghost predicate UpToDate(known: seq<Volume>, observed: seq<Volume>, r: seq<Volume>) {
    forall v | v in r :: if Latest(observed, MappingOf(v)).Some? then v == Latest(observed, MappingOf(v)).value
      else v in known
  }

  /** `mergeFleetVolumes`: every mapping of either list survives; an observed mapping carries its latest
      observation, every other keeps its known record. */
  method MergeVolumes(known: seq<Volume>, observed: seq<Volume>) returns (r: seq<Volume>)
    ensures r == Merged(known, observed) && Mappings(r) == Mappings(known) + Mappings(observed)
    ensures OneEach(known) ==> OneEach(r) && UpToDate(known, observed, r)
  {
    hide UpToDate, OneEach, Latest, Put;
    NothingNew(known);
    r := known;
    for i := 0 to |observed|
      invariant r == Merged(known, observed[..i]) && Mappings(r) == Mappings(known) + Mappings(observed[..i])
      invariant OneEach(known) ==> OneEach(r) && UpToDate(known, observed[..i], r)
    {
      ghost var before := r;
      r := PutVolume(r, observed[i]);
      ghost var next := observed[..i + 1];
      assert next == observed[..i] + [observed[i]] && next[..|next| - 1] == observed[..i];
      if OneEach(known) {
        LatestNext(known, observed, i, before, r);
      }
    }
    assert observed[..|observed|] == observed;
  }

  lemma NothingNew(known: seq<Volume>)
    ensures UpToDate(known, [], known)
  {
  }

  lemma LatestNext(known: seq<Volume>, observed: seq<Volume>, i: nat, before: seq<Volume>, r: seq<Volume>)
    requires i < |observed| && UpToDate(known, observed[..i], before) && OneEach(r) && observed[i] in r
    requires forall w | w in r && MappingOf(w) != MappingOf(observed[i]) :: w in before
    ensures UpToDate(known, observed[..i + 1], r)
  {
    var next := observed[..i + 1];
    assert next[..i] == observed[..i];
    forall v | v in r
      ensures if Latest(next, MappingOf(v)).Some? then v == Latest(next, MappingOf(v)).value else v in known
    {
      if MappingOf(v) == MappingOf(observed[i]) {
        OnlyOne(r, v, observed[i]);
      } else {
        assert v in before;
      }
    }
  }

  lemma OnlyOne(vs: seq<Volume>, v: Volume, w: Volume)
    requires OneEach(vs) && v in vs && w in vs && MappingOf(v) == MappingOf(w)
    ensures v == w
  {
    var i :| 0 <= i < |vs| && vs[i] == v;
    var j :| 0 <= j < |vs| && vs[j] == w;
    if i < j {
    } else if j < i {
    }
  }

  // ---------------------------------------------------------------- exact inspection

  /** One row of an exact instance read: `valid` and `pending` are the verdicts of the comparison of its settings
      with the immutable pins. */
  datatype InstanceRow = InstanceRow(id: string, volumes: seq<Volume>, valid: bool, pending: bool)

  datatype VolumeRow = VolumeRow(id: string, valid: bool, pending: bool)

  /** One answered page, with the verdict of its call and the token of the next. */
  datatype Page<R> = Page(rows: seq<R>, failed: bool, next: string)

  datatype Observation = Observation(worker: Worker, seen: bool, mismatch: bool, pending: bool, rootVerified: bool,
                                     root: string)

  datatype InspectionError = LaunchIdentityMismatch | WorkerInventoryInvalid | WorkerObservationUnavailable

  /** The root of a row: the last one, if it shows several. */
  ghost function RootOf(vs: seq<Volume>): string {
    if vs == [] then "" else if vs[|vs| - 1].root then vs[|vs| - 1].id else RootOf(vs[..|vs| - 1])
  }

  ghost predicate RootMoved(known: seq<Volume>, actual: seq<Volume>) {
    exists i, j ::
      0 <= i < |known| && 0 <= j < |actual| && known[i].root && actual[j].root && known[i].id != actual[j].id
  }

  /** An observation with one more row. */
  ghost function Seeing(o: Observation, row: InstanceRow): Observation {
    Observation(o.worker.(volumes := Merged(o.worker.volumes, row.volumes)), true,
                o.mismatch || o.seen || !row.valid || RootMoved(o.worker.volumes, row.volumes),
                o.pending || row.pending, o.rootVerified,
                if RootOf(row.volumes) != "" then RootOf(row.volumes) else o.root)
  }

  /** The loops over both lists that look for a root that is not the known one. */
  method RootConflict(known: seq<Volume>, actual: seq<Volume>) returns (moved: bool)
    ensures moved <==> RootMoved(known, actual)
  {
    moved := false;
    for i := 0 to |known|
      invariant moved <==> exists k, j ::
                  0 <= k < i && 0 <= j < |actual| && known[k].root && actual[j].root && known[k].id != actual[j].id
    {
      if known[i].root {
        for j := 0 to |actual|
          invariant moved <==>
                      || (exists k, m :: 0 <= k < i && 0 <= m < |actual|
                            && known[k].root && actual[m].root && known[k].id != actual[m].id)
                      || exists m :: 0 <= m < j && actual[m].root && known[i].id != actual[m].id
        {
          if actual[j].root && known[i].id != actual[j].id {
            moved := true;
          }
        }
      }
    }
  }

  method LastRoot(vs: seq<Volume>) returns (root: string)
    ensures root == RootOf(vs)
  {
    root := "";
    for n := 0 to |vs|
      invariant root == RootOf(vs[..n])
    {
      assert vs[..n + 1][..n] == vs[..n];
      if vs[n].root {
        root := vs[n].id;
      }
    }
    assert vs[..|vs|] == vs;
  }

  /** `observeFleetInstance`: mappings are learned even from a row that contradicts the pins. */
  method ObserveInstance(o: Observation, row: InstanceRow) returns (r: Observation)
    ensures r == Seeing(o, row)
    ensures r.worker == o.worker.(volumes := r.worker.volumes) && r.seen
    ensures Mappings(r.worker.volumes) == Mappings(o.worker.volumes) + Mappings(row.volumes)
    ensures r.mismatch <==> o.mismatch || o.seen || !row.valid || RootMoved(o.worker.volumes, row.volumes)
    ensures r.pending <==> o.pending || row.pending
    ensures r.rootVerified == o.rootVerified
  {
    hide RootMoved, Merged, Mappings, OneEach, UpToDate;
    var moved := RootConflict(o.worker.volumes, row.volumes);
    var volumes := MergeVolumes(o.worker.volumes, row.volumes);
    r := o.(worker := o.worker.(volumes := volumes));
    if moved || o.seen {
      r := r.(mismatch := true);
    }
    r := r.(seen := true);
    if row.pending {
      r := r.(pending := true);
    }
    var root := LastRoot(row.volumes);
    if root != "" {
      r := r.(root := root);
    }
    if !row.valid {
      r := r.(mismatch := true);
    }
  }

  /** Nothing known about a worker is taken back. */
  ghost predicate Grown(a: Observation, b: Observation) {
    && b.worker.id == a.worker.id && b.worker.attempt == a.worker.attempt
       && Mappings(a.worker.volumes) <= Mappings(b.worker.volumes)
    && (a.mismatch ==> b.mismatch) && (a.pending ==> b.pending) && (a.seen ==> b.seen)
  }

  ghost predicate Kept(before: map<string, Observation>, after: map<string, Observation>) {
    after.Keys == before.Keys && forall id | id in before :: Grown(before[id], after[id])
  }

  lemma KeptTransitive(a: map<string, Observation>, b: map<string, Observation>, c: map<string, Observation>)
    requires Kept(a, b) && Kept(b, c)
    ensures Kept(a, c)
  {
  }

  lemma KeptUpdate(a: map<string, Observation>, b: map<string, Observation>, id: string, o: Observation)
    requires Kept(a, b) && id in b && Grown(b[id], o)
    ensures Kept(a, b[id := o]) && Kept(b, b[id := o])
  {
  }

  /** A row about a known worker has been taken in: its mappings are there, and so are its verdicts. */
  ghost predicate RowKept(workers: map<string, Observation>, row: InstanceRow) {
    row.id in workers && ValidInstanceID(row.id) ==>
      && workers[row.id].seen && Mappings(row.volumes) <= Mappings(workers[row.id].worker.volumes)
      && (!row.valid ==> workers[row.id].mismatch) && (row.pending ==> workers[row.id].pending)
  }

  lemma RowsStayKept(a: map<string, Observation>, b: map<string, Observation>, rows: seq<InstanceRow>)
    requires Kept(a, b) && forall row | row in rows :: RowKept(a, row)
    ensures forall row | row in rows :: RowKept(b, row)
  {
  }

  ghost function RowIds(rows: seq<InstanceRow>): set<string> {
    set row | row in rows :: row.id
  }

  /** Only a row about a worker makes it observed. */
  ghost predicate SeenIn(workers: map<string, Observation>, ids: set<string>) {
    forall id | id in workers && workers[id].seen :: id in ids
  }

  /** What rows make known, and whether one of them was not asked for or came twice. */
  datatype InstanceSight = InstanceSight(workers: map<string, Observation>, invalid: bool)

  ghost function RowTaken(s: InstanceSight, row: InstanceRow): InstanceSight {
    if row.id !in s.workers || !ValidInstanceID(row.id) then s.(invalid := true)
    else InstanceSight(s.workers[row.id := Seeing(s.workers[row.id], row)], s.invalid || s.workers[row.id].seen)
  }

  ghost function RowsTaken(s: InstanceSight, rows: seq<InstanceRow>): InstanceSight {
    if rows == [] then s else RowTaken(RowsTaken(s, rows[..|rows| - 1]), rows[|rows| - 1])
  }

  lemma {:induction false} RowsTakenJoin(s: InstanceSight, a: seq<InstanceRow>, b: seq<InstanceRow>)
    ensures RowsTaken(s, a + b) == RowsTaken(RowsTaken(s, a), b)
  {
    hide RowTaken;
    if b == [] {
      assert a + b == a;
    } else {
      RowsTakenJoin(s, a, b[..|b| - 1]);
      assert (a + b)[..|a + b| - 1] == a + b[..|b| - 1];
    }
  }

  method ObserveRows(start: map<string, Observation>, before: bool, rows: seq<InstanceRow>, ghost ids: set<string>)
    returns (workers: map<string, Observation>, invalid: bool)
    requires SeenIn(start, ids)
    ensures InstanceSight(workers, invalid) == RowsTaken(InstanceSight(start, before), rows)
    ensures Kept(start, workers) && SeenIn(workers, ids + RowIds(rows))
    ensures forall row | row in rows :: RowKept(workers, row)
    ensures !invalid ==> !before && forall row | row in rows :: row.id in start && ValidInstanceID(row.id)
  {
    hide ValidInstanceID, Mappings, Kept, RowKept, SeenIn, Seeing;
    workers, invalid := start, before;
    KeptReflexive(start);
    assert ids + RowIds(rows[..0]) == ids;
    for n := 0 to |rows|
      invariant InstanceSight(workers, invalid) == RowsTaken(InstanceSight(start, before), rows[..n])
      invariant Kept(start, workers) && SeenIn(workers, ids + RowIds(rows[..n])) && workers.Keys == start.Keys
      invariant forall row | row in rows[..n] :: RowKept(workers, row)
      invariant !invalid ==> !before && forall row | row in rows[..n] :: row.id in start && ValidInstanceID(row.id)
    {
      var row := rows[n];
      assert rows[..n + 1] == rows[..n] + [row] && rows[..n + 1][..n] == rows[..n];
      if row.id !in workers || !ValidInstanceID(row.id) {
        invalid := true;
        RowIgnored(workers, row, rows[..n], ids);
      } else {
        if workers[row.id].seen {
          invalid := true;
        }
        var o := ObserveInstance(workers[row.id], row);
        RowLearned(start, workers, row, o, rows[..n], ids);
        workers := workers[row.id := o];
      }
    }
    assert rows[..|rows|] == rows;
  }

  lemma RowIgnored(workers: map<string, Observation>, row: InstanceRow, rows: seq<InstanceRow>, ids: set<string>)
    requires SeenIn(workers, ids + RowIds(rows)) && (row.id !in workers || !ValidInstanceID(row.id))
    ensures SeenIn(workers, ids + RowIds(rows + [row])) && RowKept(workers, row)
  {
    hide ValidInstanceID, Mappings;
    assert forall r :: r in rows ==> r in rows + [row];
  }

  lemma RowLearned(start: map<string, Observation>, held: map<string, Observation>, row: InstanceRow, o: Observation,
                   rows: seq<InstanceRow>, ids: set<string>)
    requires Kept(start, held) && SeenIn(held, ids + RowIds(rows)) && forall r | r in rows :: RowKept(held, r)
    requires row.id in held && o.worker == held[row.id].worker.(volumes := o.worker.volumes) && o.seen
    requires Mappings(o.worker.volumes) == Mappings(held[row.id].worker.volumes) + Mappings(row.volumes)
    requires o.mismatch <==> held[row.id].mismatch || held[row.id].seen || !row.valid
                             || RootMoved(held[row.id].worker.volumes, row.volumes)
    requires o.pending <==> held[row.id].pending || row.pending
    ensures var after := held[row.id := o];
            && Kept(start, after) && after.Keys == start.Keys && SeenIn(after, ids + RowIds(rows + [row]))
            && forall r | r in rows + [row] :: RowKept(after, r)
  {
    hide ValidInstanceID, Mappings, RootMoved, RowKept;
    var after := held[row.id := o];
    KeptUpdate(start, held, row.id, o);
    RowsStayKept(held, after, rows);
    assert RowIds(rows + [row]) == RowIds(rows) + {row.id};
    RowTakenIn(after, row);
  }

  lemma RowTakenIn(after: map<string, Observation>, row: InstanceRow)
    requires row.id in after && after[row.id].seen && Mappings(row.volumes) <= Mappings(after[row.id].worker.volumes)
    requires (!row.valid ==> after[row.id].mismatch) && (row.pending ==> after[row.id].pending)
    ensures RowKept(after, row)
  {
  }

  ghost function Rows<R>(pages: seq<Page<R>>): seq<R> {
    if pages == [] then [] else Rows(pages[..|pages| - 1]) + pages[|pages| - 1].rows
  }

  lemma RowsOne<R>(pages: seq<Page<R>>, n: nat)
    requires n < |pages|
    ensures Rows(pages[..n + 1]) == Rows(pages[..n]) + pages[n].rows
  {
    assert pages[..n + 1][..n] == pages[..n];
  }

  lemma RowsKeptJoin(workers: map<string, Observation>, a: seq<InstanceRow>, b: seq<InstanceRow>)
    requires forall row | row in a :: RowKept(workers, row)
    requires forall row | row in b :: RowKept(workers, row)
    ensures forall row | row in a + b :: RowKept(workers, row)
  {
  }

  // ---------------------------------------------------------------- paginated reads

  /** Why a paginated read ended: no further answer came, a call failed, the last page, or a token came again. */
  datatype Stop = GaveUp | PageFailed | Ended | TokenRepeated

  ghost predicate Leads<R>(p: Page<R>, tokens: set<string>) {
    !p.failed && p.next != "" && p.next !in tokens
  }

  /** How many of the answers a paginated read takes in. */
  ghost function Extent<R>(pages: seq<Page<R>>, tokens: set<string>): (n: nat)
    ensures n <= |pages|
  {
    if pages == [] then 0
    else if Leads(pages[0], tokens) then 1 + Extent(pages[1..], tokens + {pages[0].next}) else 1
  }

  ghost function StopOf<R>(pages: seq<Page<R>>, tokens: set<string>): Stop {
    if pages == [] then GaveUp
    else if Leads(pages[0], tokens) then StopOf(pages[1..], tokens + {pages[0].next})
    else if pages[0].failed then PageFailed else if pages[0].next == "" then Ended else TokenRepeated
  }

  /** A read that has taken in `read` pages and asks for another. */
  ghost predicate Underway<R>(pages: seq<Page<R>>, read: nat, tokens: set<string>) {
    && read <= |pages| && Extent(pages, {}) == read + Extent(pages[read..], tokens)
    && StopOf(pages, {}) == StopOf(pages[read..], tokens)
  }

  lemma OnePageMore<R>(pages: seq<Page<R>>, read: nat, tokens: set<string>)
    requires Underway(pages, read, tokens) && read < |pages|
    ensures if Leads(pages[read], tokens) then Underway(pages, read + 1, tokens + {pages[read].next})
            else
              && Extent(pages, {}) == read + 1
              && StopOf(pages, {}) == if pages[read].failed then PageFailed
                                      else if pages[read].next == "" then Ended else TokenRepeated
  {
    assert pages[read..][0] == pages[read] && pages[read..][1..] == pages[read + 1..];
  }

  lemma AllPagesTaken<R>(pages: seq<Page<R>>, tokens: set<string>)
    requires Underway(pages, |pages|, tokens)
    ensures Extent(pages, {}) == |pages| && StopOf(pages, {}) == GaveUp
  {
  }

  /** A read that ended took in a last page, which did not fail. */
  lemma {:induction false} EndedWhole<R>(pages: seq<Page<R>>, tokens: set<string>)
    requires StopOf(pages, tokens) == Ended
    ensures var n := Extent(pages, tokens);
            0 < n && pages[n - 1].next == "" && forall k | 0 <= k < n :: !pages[k].failed
  {
    if Leads(pages[0], tokens) {
      EndedWhole(pages[1..], tokens + {pages[0].next});
    }
  }

  /** The paginated read of exact instances. It ends at the last page, a failure, a repeated token, or when no
      further answer comes; `read` pages were taken in. */
  method ReadInstances(start: map<string, Observation>, pages: seq<Page<InstanceRow>>)
    returns (workers: map<string, Observation>, invalid: bool, failed: bool, read: nat)
    requires SeenIn(start, {})
    ensures Kept(start, workers) && read == Extent(pages, {}) && SeenIn(workers, RowIds(Rows(pages[..read])))
    ensures forall row | row in Rows(pages[..read]) :: RowKept(workers, row)
    ensures !invalid ==> forall row | row in Rows(pages[..read]) :: row.id in start && ValidInstanceID(row.id)
    ensures var s := RowsTaken(InstanceSight(start, false), Rows(pages[..read]));
            workers == s.workers && (invalid <==> s.invalid || StopOf(pages, {}) == TokenRepeated)
    ensures failed <==> StopOf(pages, {}) in {GaveUp, PageFailed}
  {
    hide ValidInstanceID, RowKept, SeenIn, Kept, Extent, StopOf, Underway, RowTaken, RowIds;
    workers, invalid, failed, read := start, false, false, 0;
    KeptReflexive(start);
    NothingRead(start, pages);
    var tokens := {};
    while true
      invariant read <= |pages| && !failed && Underway(pages, read, tokens)
      invariant InstanceSight(workers, invalid) == RowsTaken(InstanceSight(start, false), Rows(pages[..read]))
      invariant Kept(start, workers) && SeenIn(workers, RowIds(Rows(pages[..read])))
      invariant forall row | row in Rows(pages[..read]) :: RowKept(workers, row)
      invariant !invalid ==> forall row | row in Rows(pages[..read]) :: row.id in start && ValidInstanceID(row.id)
      decreases |pages| - read
    {
      if read == |pages| {
        AllPagesTaken(pages, tokens);
        failed := true;
        return;
      }
      var page := pages[read];
      ghost var before := workers;
      OnePageMore(pages, read, tokens);
      workers, invalid := ObserveRows(workers, invalid, page.rows, RowIds(Rows(pages[..read])));
      PageTaken(start, before, workers, pages, read);
      KeptKeys(start, before);
      read := read + 1;
      if page.failed {
        failed := true;
        return;
      }
      if page.next == "" {
        return;
      }
      if page.next in tokens {
        invalid := true;
        return;
      }
      tokens := tokens + {page.next};
    }
  }

  lemma NothingRead(start: map<string, Observation>, pages: seq<Page<InstanceRow>>)
    ensures Underway(pages, 0, {}) && Rows(pages[..0]) == [] && RowIds([]) == {}
    ensures forall s: InstanceSight :: RowsTaken(s, []) == s
  {
    assert pages[0..] == pages;
  }

  /** The rows of one page, taken in behind those of the pages before it. */
  lemma PageTaken(start: map<string, Observation>, before: map<string, Observation>, after: map<string, Observation>,
                  pages: seq<Page<InstanceRow>>, n: nat)
    requires n < |pages| && Kept(start, before) && Kept(before, after)
    requires SeenIn(after, RowIds(Rows(pages[..n])) + RowIds(pages[n].rows))
    requires forall row | row in Rows(pages[..n]) :: RowKept(before, row)
    requires forall row | row in pages[n].rows :: RowKept(after, row)
    ensures Kept(start, after) && SeenIn(after, RowIds(Rows(pages[..n + 1])))
    ensures forall row | row in Rows(pages[..n + 1]) :: RowKept(after, row)
    ensures Rows(pages[..n + 1]) == Rows(pages[..n]) + pages[n].rows
    ensures forall s: InstanceSight ::
              RowsTaken(s, Rows(pages[..n + 1])) == RowsTaken(RowsTaken(s, Rows(pages[..n])), pages[n].rows)
  {
    hide ValidInstanceID, RowKept, SeenIn, Kept, RowTaken, RowsTaken;
    KeptTransitive(start, before, after);
    RowsStayKept(before, after, Rows(pages[..n]));
    RowsOne(pages, n);
    RowsKeptJoin(after, Rows(pages[..n]), pages[n].rows);
    assert RowIds(Rows(pages[..n + 1])) == RowIds(Rows(pages[..n])) + RowIds(pages[n].rows);
    forall s: InstanceSight
      ensures RowsTaken(s, Rows(pages[..n + 1])) == RowsTaken(RowsTaken(s, Rows(pages[..n])), pages[n].rows)
    {
      RowsTakenJoin(s, Rows(pages[..n]), pages[n].rows);
    }
  }

  lemma KeptReflexive(a: map<string, Observation>)
    ensures Kept(a, a)
  {
  }

  ghost function Owners(workers: map<string, Observation>, root: string): set<string> {
    set id | id in workers && workers[id].root != "" && workers[id].root == root
  }

  /** A worker after one row about its root. */
  ghost function Rooted(o: Observation, row: VolumeRow, repeated: bool): Observation {
    o.(mismatch := o.mismatch || !row.valid || repeated, pending := o.pending || row.pending, rootVerified := row.valid)
  }

  ghost function VolumeObserved(workers: map<string, Observation>, row: VolumeRow, repeated: bool)
    : map<string, Observation> {
    map id | id in workers ::
      if id in Owners(workers, row.id) then Rooted(workers[id], row, repeated) else workers[id]
  }

  /** A root shared by several instances contradicts them all. */
  ghost function SharedRoots(workers: map<string, Observation>): map<string, Observation> {
    map id | id in workers ::
      if workers[id].root != "" && Owners(workers, workers[id].root) != {id} then workers[id].(mismatch := true)
      else workers[id]
  }

  /** What volume rows make known, and whether one of them was not asked for or came twice. */
  datatype VolumeSight = VolumeSight(workers: map<string, Observation>, seen: set<string>, invalid: bool)

  ghost function VolumeTaken(s: VolumeSight, row: VolumeRow): VolumeSight {
    if Owners(s.workers, row.id) == {} then s.(invalid := true)
    else VolumeSight(VolumeObserved(s.workers, row, row.id in s.seen), s.seen + {row.id},
                     s.invalid || row.id in s.seen)
  }

  ghost function VolumesTaken(s: VolumeSight, rows: seq<VolumeRow>): VolumeSight {
    if rows == [] then s else VolumeTaken(VolumesTaken(s, rows[..|rows| - 1]), rows[|rows| - 1])
  }

  lemma {:induction false} VolumesTakenJoin(s: VolumeSight, a: seq<VolumeRow>, b: seq<VolumeRow>)
    ensures VolumesTaken(s, a + b) == VolumesTaken(VolumesTaken(s, a), b)
  {
    hide VolumeTaken;
    if b == [] {
      assert a + b == a;
    } else {
      VolumesTakenJoin(s, a, b[..|b| - 1]);
      assert (a + b)[..|a + b| - 1] == a + b[..|b| - 1];
    }
  }

  /** The workers that showed a root. */
  method OwnersOf(workers: map<string, Observation>, root: string) returns (owners: set<string>)
    ensures owners == Owners(workers, root)
  {
    owners := {};
    var rest := workers.Keys;
    while rest != {}
      invariant rest <= workers.Keys && owners == Owners(workers, root) - rest
      decreases rest
    {
      var id :| id in rest;
      rest := rest - {id};
      if workers[id].root != "" && workers[id].root == root {
        owners := owners + {id};
      }
    }
  }

  /** `observeFleetVolume` for every owner of one returned root volume. */
  method ObserveVolume(start: map<string, Observation>, owners: set<string>, row: VolumeRow, repeated: bool)
    returns (workers: map<string, Observation>)
    requires owners == Owners(start, row.id)
    ensures workers == VolumeObserved(start, row, repeated)
  {
    workers := start;
    var rest := owners;
    while rest != {}
      invariant rest <= owners && workers.Keys == start.Keys
      invariant forall id | id in start ::
                  workers[id] == if id in owners - rest then Rooted(start[id], row, repeated) else start[id]
      decreases rest
    {
      var id :| id in rest;
      rest := rest - {id};
      var o := workers[id];
      if repeated {
        o := o.(mismatch := true);
      }
      if row.pending {
        o := o.(pending := true);
      }
      if !row.valid {
        o := o.(mismatch := true);
      }
      workers := workers[id := o.(rootVerified := row.valid)];
    }
  }

  /** The loop over the roots that were seen. */
  method ContradictShared(start: map<string, Observation>) returns (workers: map<string, Observation>, any: bool)
    ensures workers == SharedRoots(start) && (any <==> exists id :: id in start && start[id].root != "")
  {
    hide Owners;
    workers, any := start, false;
    var rest := start.Keys;
    while rest != {}
      invariant rest <= start.Keys && workers.Keys == start.Keys
      invariant any <==> exists id :: id in start && id !in rest && start[id].root != ""
      invariant forall id | id in start :: workers[id] == if id in rest then start[id] else SharedRoots(start)[id]
      decreases rest
    {
      var id :| id in rest;
      rest := rest - {id};
      if start[id].root != "" {
        any := true;
        var owners := OwnersOf(start, start[id].root);
        if owners != {id} {
          workers := workers[id := workers[id].(mismatch := true)];
        }
      }
    }
  }

  lemma VolumeKept(workers: map<string, Observation>, row: VolumeRow, repeated: bool)
    ensures Kept(workers, VolumeObserved(workers, row, repeated))
            && SameSeen(workers, VolumeObserved(workers, row, repeated))
  {
    hide Owners, Mappings;
  }

  ghost predicate SameSeen(a: map<string, Observation>, b: map<string, Observation>) {
    a.Keys == b.Keys && forall id | id in a :: a[id].seen == b[id].seen
  }

  /** The volume rows of one page. */
  method TakeVolumes(start: map<string, Observation>, known: set<string>, before: bool, rows: seq<VolumeRow>)
    returns (workers: map<string, Observation>, seen: set<string>, invalid: bool)
    ensures VolumeSight(workers, seen, invalid) == VolumesTaken(VolumeSight(start, known, before), rows)
    ensures Kept(start, workers) && SameSeen(start, workers)
  {
    hide Grown, Owners, VolumeObserved, SharedRoots;
    workers, seen, invalid := start, known, before;
    KeptReflexive(start);
    for n := 0 to |rows|
      invariant VolumeSight(workers, seen, invalid) == VolumesTaken(VolumeSight(start, known, before), rows[..n])
      invariant Kept(start, workers) && SameSeen(start, workers)
    {
      var row := rows[n];
      assert rows[..n + 1][..n] == rows[..n];
      var owners := OwnersOf(workers, row.id);
      if owners == {} {
        invalid := true;
      } else {
        if row.id in seen {
          invalid := true;
        }
        VolumeKept(workers, row, row.id in seen);
        KeptTransitive(start, workers, VolumeObserved(workers, row, row.id in seen));
        workers := ObserveVolume(workers, owners, row, row.id in seen);
        seen := seen + {row.id};
      }
    }
    assert rows[..|rows|] == rows;
  }

  /** What the reads of the root volumes make of the observations. */
  ghost function VolumesRead(start: map<string, Observation>, pages: seq<Page<VolumeRow>>): VolumeSight {
    var shared := VolumeSight(SharedRoots(start), {}, false);
    if forall id | id in start :: start[id].root == "" then shared
    else
      var s := VolumesTaken(shared, Rows(pages[..Extent(pages, {})]));
      s.(invalid := s.invalid || StopOf(pages, {}) == TokenRepeated)
  }

  /** The paginated read of the root volumes, if there is any to ask about. */
  method ReadVolumes(start: map<string, Observation>, pages: seq<Page<VolumeRow>>)
    returns (workers: map<string, Observation>, invalid: bool, failed: bool)
    ensures Kept(start, workers) && SameSeen(start, workers)
    ensures workers == VolumesRead(start, pages).workers && invalid == VolumesRead(start, pages).invalid
    ensures failed <==> (exists id :: id in start && start[id].root != "") && StopOf(pages, {}) in {GaveUp, PageFailed}
  {
    hide Grown, Owners, SharedRoots, Extent, StopOf, Underway, Kept, SameSeen, VolumesTaken;
    var any;
    workers, any := ContradictShared(start);
    invalid, failed := false, false;
    SharedKept(start);
    if !any {
      return;
    }
    ghost var shared := VolumeSight(workers, {}, false);
    NoVolumes(shared, pages);
    var tokens, seen, read := {}, {}, 0;
    while true
      invariant read <= |pages| && Kept(start, workers) && SameSeen(start, workers)
      invariant !failed && Underway(pages, read, tokens)
      invariant VolumeSight(workers, seen, invalid) == VolumesTaken(shared, Rows(pages[..read]))
      decreases |pages| - read
    {
      if read == |pages| {
        AllPagesTaken(pages, tokens);
        failed := true;
        return;
      }
      var page := pages[read];
      ghost var before := workers;
      OnePageMore(pages, read, tokens);
      workers, seen, invalid := TakeVolumes(workers, seen, invalid, page.rows);
      StillSame(start, before, workers);
      RowsOne(pages, read);
      VolumesTakenJoin(shared, Rows(pages[..read]), page.rows);
      read := read + 1;
      if page.failed {
        failed := true;
        return;
      }
      if page.next == "" {
        return;
      }
      if page.next in tokens {
        invalid := true;
        return;
      }
      tokens := tokens + {page.next};
    }
  }

  lemma NoVolumes(s: VolumeSight, pages: seq<Page<VolumeRow>>)
    ensures Underway(pages, 0, {}) && VolumesTaken(s, Rows(pages[..0])) == s
  {
    assert pages[0..] == pages;
  }

  lemma StillSame(a: map<string, Observation>, b: map<string, Observation>, c: map<string, Observation>)
    requires Kept(a, b) && SameSeen(a, b) && Kept(b, c) && SameSeen(b, c)
    ensures Kept(a, c) && SameSeen(a, c)
  {
    KeptTransitive(a, b, c);
  }

  lemma SharedKept(workers: map<string, Observation>)
    ensures Kept(workers, SharedRoots(workers)) && SameSeen(workers, SharedRoots(workers))
  {
    hide Owners, Mappings;
  }

  ghost predicate Verified(o: Observation) {
    !o.mismatch && o.seen && !o.pending && o.rootVerified
  }

  ghost function StatusOf(o: Observation): WorkerStatus {
    if o.mismatch then IdentityMismatch else if Verified(o) then Allocated else NotObserved
  }

  function Blank(w: Worker): (o: Observation)
    ensures o.worker == w && !o.seen && !o.pending && !o.rootVerified && o.root == ""
    ensures o.mismatch <==> !ValidInstanceID(w.id)
  {
    Observation(w, false, !ValidInstanceID(w.id), false, false, "")
  }

  /** The observations before anything was read: of the known workers, and then of the other identities. */
  ghost function KnownBlank(known: seq<Worker>): map<string, Observation> {
    if known == [] then map[]
    else
      var m, w := KnownBlank(known[..|known| - 1]), known[|known| - 1];
      if w.id in m then
        m[w.id := m[w.id].(worker := m[w.id].worker.(volumes := Merged(m[w.id].worker.volumes, w.volumes)))]
      else m[w.id := Blank(w.(status := NotObserved))]
  }

  ghost function AllBlank(plan: LaunchPlan, attempt: AttemptID, ids: seq<string>, known: seq<Worker>)
    : map<string, Observation> {
    if ids == [] then KnownBlank(known)
    else
      var m, id := AllBlank(plan, attempt, ids[..|ids| - 1], known), ids[|ids| - 1];
      if id in m then m else m[id := Blank(FleetWorker(plan, attempt, id, NO_CHOICE))]
  }

  /** Observations before anything was read. */
  ghost predicate Fresh(workers: map<string, Observation>) {
    forall id | id in workers ::
      workers[id].worker.id == id && !workers[id].seen && (ValidInstanceID(id) || workers[id].mismatch)
  }

  ghost predicate Covers(workers: map<string, Observation>, known: seq<Worker>) {
    && (forall w | w in known :: w.id in workers && Mappings(w.volumes) <= Mappings(workers[w.id].worker.volumes))
    && (forall id | id in workers && id in WorkerIds(known) :: Attributed(known, id, workers[id].worker.attempt))
  }

  /** One of the known entries of an identity names this attempt. */
  ghost predicate Attributed(known: seq<Worker>, id: string, attempt: Option<AttemptID>) {
    exists w :: w in known && w.id == id && w.attempt == attempt
  }

  lemma CoversOne(workers: map<string, Observation>, known: seq<Worker>, w: Worker, o: Observation)
    requires Covers(workers, known) && Mappings(w.volumes) <= Mappings(o.worker.volumes)
    requires if w.id in workers then
               w.id in WorkerIds(known) && o.worker.attempt == workers[w.id].worker.attempt
               && Mappings(workers[w.id].worker.volumes) <= Mappings(o.worker.volumes)
             else o.worker.attempt == w.attempt
    ensures Covers(workers[w.id := o], known + [w])
  {
    hide Mappings;
    var all := known + [w];
    assert w in all;
    forall id | id in workers[w.id := o] && id in WorkerIds(all)
      ensures Attributed(all, id, workers[w.id := o][id].worker.attempt)
    {
      if id in workers && id in WorkerIds(known) {
        var x :| x in known && x.id == id && x.attempt == workers[id].worker.attempt;
        assert x in all;
      }
    }
  }

  lemma CoversMore(workers: map<string, Observation>, known: seq<Worker>, id: string, o: Observation)
    requires Covers(workers, known) && id !in workers && WorkerIds(known) <= workers.Keys
    ensures Covers(workers[id := o], known)
  {
    hide Mappings, Attributed;
    forall w | w in known
      ensures w.id in workers
    {
      assert w.id in WorkerIds(known);
    }
  }

  lemma NothingKnown()
    ensures Fresh(map[]) && Covers(map[], []) && WorkerIds([]) == {}
  {
  }

  lemma KnownOne(workers: map<string, Observation>, known: seq<Worker>, w: Worker, o: Observation)
    requires Fresh(workers) && Covers(workers, known) && workers.Keys == WorkerIds(known)
    requires if w.id in workers then
               && o == workers[w.id].(worker := workers[w.id].worker.(volumes := o.worker.volumes))
               && Mappings(o.worker.volumes) == Mappings(workers[w.id].worker.volumes) + Mappings(w.volumes)
             else o == Blank(w.(status := NotObserved))
    ensures Fresh(workers[w.id := o]) && Covers(workers[w.id := o], known + [w])
    ensures WorkerIds(known + [w]) == WorkerIds(known) + {w.id}
  {
    hide ValidInstanceID, Mappings;
    CoversOne(workers, known, w, o);
  }

  /** One observation for each known worker; a repeated one adds its volumes. */
  method BeginKnown(known: seq<Worker>) returns (workers: map<string, Observation>)
    ensures workers.Keys == WorkerIds(known) && Fresh(workers) && Covers(workers, known)
    ensures workers == KnownBlank(known)
  {
    hide ValidInstanceID, Mappings, Merged, Covers, Fresh, WorkerIds, UpToDate, OneEach;
    workers := map[];
    NothingKnown();
    for n := 0 to |known|
      invariant workers.Keys == WorkerIds(known[..n]) && Fresh(workers) && Covers(workers, known[..n])
      invariant workers == KnownBlank(known[..n])
    {
      var w := known[n];
      assert known[..n + 1] == known[..n] + [w] && known[..n + 1][..n] == known[..n];
      var o := Blank(w.(status := NotObserved));
      if w.id in workers {
        o := workers[w.id];
        var volumes := MergeVolumes(o.worker.volumes, w.volumes);
        o := o.(worker := o.worker.(volumes := volumes));
      }
      KnownOne(workers, known[..n], w, o);
      workers := workers[w.id := o];
    }
    assert known[..|known|] == known;
  }

  lemma FreshOne(workers: map<string, Observation>, plan: LaunchPlan, attempt: AttemptID, id: string)
    requires Fresh(workers)
    ensures Fresh(workers[id := Blank(FleetWorker(plan, attempt, id, NO_CHOICE))])
  {
    hide ValidInstanceID;
  }

  /** The identities that only the attempt lists are inspected as well. */
  method Begin(plan: LaunchPlan, a: AttemptReceipt, known: seq<Worker>) returns (workers: map<string, Observation>)
    ensures workers.Keys == WorkerIds(known) + Elems(a.instances) && Fresh(workers) && Covers(workers, known)
    ensures workers == AllBlank(plan, a.id, a.instances, known)
  {
    hide ValidInstanceID, Mappings, Covers, KnownBlank, Fresh;
    workers := BeginKnown(known);
    for n := 0 to |a.instances|
      invariant workers.Keys == WorkerIds(known) + Elems(a.instances[..n]) && Fresh(workers) && Covers(workers, known)
      invariant workers == AllBlank(plan, a.id, a.instances[..n], known)
    {
      var id := a.instances[n];
      assert a.instances[..n + 1] == a.instances[..n] + [id] && a.instances[..n + 1][..n] == a.instances[..n];
      if id !in workers {
        CoversMore(workers, known, id, Blank(FleetWorker(plan, a.id, id, NO_CHOICE)));
        FreshOne(workers, plan, a.id, id);
        workers := workers[id := Blank(FleetWorker(plan, a.id, id, NO_CHOICE))];
      }
    }
    assert a.instances[..|a.instances|] == a.instances;
  }

  /** One result for each observation, in identity order. */
  method Results(workers: map<string, Observation>)
    returns (ids: seq<string>, result: seq<Worker>, mismatch: bool, missing: bool)
    ensures Sorted(ids) && Elems(ids) == workers.Keys && |result| == |ids|
    ensures forall k | 0 <= k < |ids| ::
              ids[k] in workers && result[k] == workers[ids[k]].worker.(status := StatusOf(workers[ids[k]]))
    ensures mismatch <==> exists id :: id in workers && workers[id].mismatch
    ensures missing <==> exists id :: id in workers && StatusOf(workers[id]) == NotObserved
  {
    ids, result, mismatch, missing := [], [], false, false;
    var rest := workers.Keys;
    while rest != {}
      invariant rest <= workers.Keys && Sorted(ids) && Elems(ids) == workers.Keys - rest
      decreases rest
    {
      var id :| id in rest;
      rest := rest - {id};
      ids := SortedInsert(ids, id);
    }
    hide Sorted;
    for n := 0 to |ids|
      invariant |result| == n
      invariant forall k | 0 <= k < n ::
                  ids[k] in workers && result[k] == workers[ids[k]].worker.(status := StatusOf(workers[ids[k]]))
      invariant mismatch <==> exists k :: 0 <= k < n && ids[k] in workers && workers[ids[k]].mismatch
      invariant missing <==> exists k :: 0 <= k < n && ids[k] in workers && StatusOf(workers[ids[k]]) == NotObserved
    {
      assert ids[n] in Elems(ids);
      var o := workers[ids[n]];
      var status := NotObserved;
      if o.mismatch {
        status, mismatch := IdentityMismatch, true;
      } else if o.seen && !o.pending && o.rootVerified {
        status := Allocated;
      } else {
        missing := true;
      }
      result := result + [o.worker.(status := status)];
    }
    forall id | id in workers
      ensures exists k :: 0 <= k < |ids| && ids[k] == id
    {
      assert id in Elems(ids);
    }
  }

  ghost function WorkerIds(ws: seq<Worker>): set<string> {
    set w | w in ws :: w.id
  }

  ghost predicate SortedByID(ws: seq<Worker>) {
    forall i, j | 0 <= i < j < |ws| :: Before(ws[i].id, ws[j].id)
  }

  /** Every mapping known for a worker is in its result, and so is its attempt. */
  ghost predicate KeepsKnown(known: seq<Worker>, result: seq<Worker>) {
    && (forall w, r | w in known && r in result && r.id == w.id :: Mappings(w.volumes) <= Mappings(r.volumes))
    && (forall r | r in result && r.id in WorkerIds(known) :: Attributed(known, r.id, r.attempt))
  }

  /** Every mapping learned from a row is in the result, and no row contradicts or lags behind an allocated worker. */
  ghost predicate KeepsRows(rows: seq<InstanceRow>, result: seq<Worker>) {
    forall row, r | row in rows && r in result && r.id == row.id && ValidInstanceID(row.id) ::
      Mappings(row.volumes) <= Mappings(r.volumes) && (r.status == Allocated ==> row.valid && !row.pending)
  }

  /** Every result is the last observation of its identity. */
  ghost predicate Reports(final: map<string, Observation>, result: seq<Worker>) {
    forall r | r in result :: r.id in final && r == final[r.id].worker.(status := StatusOf(final[r.id]))
  }

  lemma ResultsReport(final: map<string, Observation>, ids: seq<string>, result: seq<Worker>)
    requires forall id | id in final :: final[id].worker.id == id
    requires |result| == |ids| && Elems(ids) == final.Keys && Sorted(ids)
    requires forall k | 0 <= k < |ids| ::
               ids[k] in final && result[k] == final[ids[k]].worker.(status := StatusOf(final[ids[k]]))
    ensures SortedByID(result) && WorkerIds(result) == final.Keys && Reports(final, result)
  {
    hide StatusOf;
    forall r | r in result
      ensures r.id in final && r == final[r.id].worker.(status := StatusOf(final[r.id]))
    {
      var k :| 0 <= k < |result| && result[k] == r;
    }
    forall id | id in final
      ensures id in WorkerIds(result)
    {
      assert id in Elems(ids);
      var k :| 0 <= k < |ids| && ids[k] == id;
      assert result[k] in result;
    }
  }

  lemma ReportsKeep(start: map<string, Observation>, final: map<string, Observation>, known: seq<Worker>,
                    rows: seq<InstanceRow>,
                    result: seq<Worker>)
    requires Reports(final, result) && Kept(start, final) && Covers(start, known)
    requires forall row | row in rows :: RowKept(final, row)
    requires SeenIn(final, RowIds(rows))
    ensures KeepsKnown(known, result) && KeepsRows(rows, result)
    ensures forall r | r in result && r.status == Allocated :: r.id in RowIds(rows)
    ensures forall r | r in result :: r.status != Historical
  {
    hide ValidInstanceID, Mappings, RowIds;
  }

  /** What the instance rows make of blank observations; without a usable identity there is nothing to ask. */
  ghost function InstancesRead(start: map<string, Observation>, pages: seq<Page<InstanceRow>>): InstanceSight {
    var s := RowsTaken(InstanceSight(start, false), Rows(pages[..InstancePages(start, pages)]));
    s.(invalid := s.invalid || (Askable(start) && StopOf(pages, {}) == TokenRepeated))
  }

  ghost predicate Askable(workers: map<string, Observation>) {
    exists id :: id in workers && ValidInstanceID(id)
  }

  ghost function InstancePages(start: map<string, Observation>, pages: seq<Page<InstanceRow>>): (n: nat)
    ensures n <= |pages|
  {
    if Askable(start) then Extent(pages, {}) else 0
  }

  /** Both paginated reads, over observations that were blank before. */
  method Inspect(start: map<string, Observation>, instancePages: seq<Page<InstanceRow>>,
                 volumePages: seq<Page<VolumeRow>>)
    returns (final: map<string, Observation>, invalid: bool, failed: bool, read: nat)
    requires Fresh(start)
    ensures read == InstancePages(start, instancePages)
    ensures Kept(start, final) && SeenIn(final, RowIds(Rows(instancePages[..read])))
    ensures forall row | row in Rows(instancePages[..read]) :: RowKept(final, row)
    ensures var seen := InstancesRead(start, instancePages);
            && final == VolumesRead(seen.workers, volumePages).workers
            && (invalid <==> seen.invalid || VolumesRead(seen.workers, volumePages).invalid)
            && (failed <==>
                  || (Askable(start) && StopOf(instancePages, {}) in {GaveUp, PageFailed})
                  || ((exists id :: id in seen.workers && seen.workers[id].root != "")
                      && StopOf(volumePages, {}) in {GaveUp, PageFailed}))
  {
    hide ValidInstanceID, RowKept, Grown, Rows, RowIds, RowTaken, VolumesRead, Extent, StopOf;
    var workers := start;
    invalid, failed, read := false, false, 0;
    KeptReflexive(start);
    NothingRead(start, instancePages);
    if exists id :: id in start && ValidInstanceID(id) {
      workers, invalid, failed, read := ReadInstances(start, instancePages);
    }
    var badVolumes, failedVolumes;
    final, badVolumes, failedVolumes := ReadVolumes(workers, volumePages);
    KeptTransitive(start, workers, final);
    RowsStayKept(workers, final, Rows(instancePages[..read]));
    invalid, failed := invalid || badVolumes, failed || failedVolumes;
  }

  lemma KeptIdentities(start: map<string, Observation>, final: map<string, Observation>)
    requires Fresh(start) && Kept(start, final)
    ensures forall id | id in final :: final[id].worker.id == id
  {
    hide ValidInstanceID, Mappings;
  }

  /** Everything that an exact inspection establishes. */
  ghost function LastSight(plan: LaunchPlan, a: AttemptReceipt, known: seq<Worker>,
                           instancePages: seq<Page<InstanceRow>>, volumePages: seq<Page<VolumeRow>>): VolumeSight {
    VolumesRead(InstancesRead(AllBlank(plan, a.id, a.instances, known), instancePages).workers, volumePages)
  }

  /** A mismatch outweighs an answer that was not asked for, and that a read that failed or showed too little. */
  ghost function InspectionFailure(plan: LaunchPlan, a: AttemptReceipt, known: seq<Worker>,
                                   instancePages: seq<Page<InstanceRow>>, volumePages: seq<Page<VolumeRow>>)
    : Option<InspectionError> {
    var start := AllBlank(plan, a.id, a.instances, known);
    var seen := InstancesRead(start, instancePages);
    var final := VolumesRead(seen.workers, volumePages);
    if exists id :: id in final.workers && final.workers[id].mismatch then Some(LaunchIdentityMismatch)
    else if seen.invalid || final.invalid then Some(WorkerInventoryInvalid)
    else if || (Askable(start) && StopOf(instancePages, {}) in {GaveUp, PageFailed})
            || ((exists id :: id in seen.workers && seen.workers[id].root != "")
                && StopOf(volumePages, {}) in {GaveUp, PageFailed})
            || (exists id :: id in final.workers && StatusOf(final.workers[id]) == NotObserved)
    then Some(WorkerObservationUnavailable) else None
  }

  /** `VerifyFleetWorkers`: the result lists exactly the known identities, keeps every mapping known before or
      learned from any page read, and is free of error only when every one of them is verified as allocated, which
      takes an observed row. */
  method VerifyFleetWorkers(plan: LaunchPlan, a: AttemptReceipt, known: seq<Worker>,
                            instancePages: seq<Page<InstanceRow>>, volumePages: seq<Page<VolumeRow>>)
    returns (result: seq<Worker>, error: Option<InspectionError>, read: nat)
    ensures read == InstancePages(AllBlank(plan, a.id, a.instances, known), instancePages)
    ensures error == InspectionFailure(plan, a, known, instancePages, volumePages)
    ensures Reports(LastSight(plan, a, known, instancePages, volumePages).workers, result)
    ensures SortedByID(result) && WorkerIds(result) == WorkerIds(known) + Elems(a.instances)
    ensures KeepsKnown(known, result) && KeepsRows(Rows(instancePages[..read]), result)
    ensures error.None? ==> forall r | r in result :: r.status == Allocated
    ensures forall r | r in result && r.status == Allocated :: r.id in RowIds(Rows(instancePages[..read]))
    ensures forall r | r in result :: r.status != Historical
  {
    hide RowKept, KeepsKnown, KeepsRows, SortedByID, Rows, RowIds, Reports, Kept, SeenIn, Covers, Fresh, StatusOf,
         AllBlank, InstancesRead, VolumesRead, StopOf, Askable, InstancePages;
    var start := Begin(plan, a, known);
    var final, invalid, failed;
    final, invalid, failed, read := Inspect(start, instancePages, volumePages);
    KeptIdentities(start, final);
    KeptKeys(start, final);
    var ids, mismatch, missing;
    ids, result, mismatch, missing := Results(final);
    ResultsReport(final, ids, result);
    ReportsKeep(start, final, known, Rows(instancePages[..read]), result);
    AllAllocated(final, ids, result, mismatch || missing);
    error := if mismatch then Some(LaunchIdentityMismatch)
             else if invalid then Some(WorkerInventoryInvalid)
             else if failed || missing then Some(WorkerObservationUnavailable) else None;
  }

  lemma KeptKeys(start: map<string, Observation>, final: map<string, Observation>)
    requires Kept(start, final)
    ensures final.Keys == start.Keys
  {
  }

  lemma AllAllocated(final: map<string, Observation>, ids: seq<string>, result: seq<Worker>, problem: bool)
    requires |result| == |ids|
    requires forall k | 0 <= k < |ids| ::
               ids[k] in final && result[k] == final[ids[k]].worker.(status := StatusOf(final[ids[k]]))
    requires !problem ==> forall id | id in final :: !final[id].mismatch && StatusOf(final[id]) != NotObserved
    ensures !problem ==> forall r | r in result :: r.status == Allocated
  {
  }
}
