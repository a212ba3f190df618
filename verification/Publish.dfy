/** Publishing several files so that a crash between any two writes can be finished by running again.
    A digest stands for the content it was computed from. Writes are atomic: each happens wholly or not at all. */
module Publish {
  import opened Basics

  type Content = string

  /** Where a file lives: a target of the setup, or a private file of one transaction. */
  datatype Path = Target(name: string) | Staged(workspace: nat, number: nat) | Backup(workspace: nat, number: nat)

  datatype Digest = Absent | Of(content: Content)

  datatype FileChange = FileChange(path: Path, before: Digest, after: Content, staged: Path)

  type Files = map<Path, Content>

  function DigestOf(files: Files, p: Path): Digest {
    if p in files then Of(files[p]) else Absent
  }

  /** Targets are targets, staged copies are private, and no two changes share either. */
  ghost predicate WellFormed(changes: seq<FileChange>) {
    && (forall i | 0 <= i < |changes| :: changes[i].path.Target? && changes[i].staged.Staged?)
    && (forall i, j | 0 <= i < j < |changes| ::
         changes[i].path != changes[j].path && changes[i].staged != changes[j].staged)
  }

  /** A change that can still be finished: old or new content in place, and the new content staged. */
  ghost predicate Resumable(files: Files, c: FileChange) {
    && (DigestOf(files, c.path) == c.before || DigestOf(files, c.path) == Of(c.after))
    && DigestOf(files, c.staged) == Of(c.after)
  }

  ghost predicate AllResumable(files: Files, changes: seq<FileChange>) {
    forall i | 0 <= i < |changes| :: Resumable(files, changes[i])
  }

  ghost predicate AllPublished(files: Files, changes: seq<FileChange>) {
    forall i | 0 <= i < |changes| :: DigestOf(files, changes[i].path) == Of(changes[i].after)
  }

  function PathsOf(changes: seq<FileChange>): set<Path> {
    set c | c in changes :: c.path
  }

  ghost predicate SameOutside(a: Files, b: Files, paths: set<Path>) {
    forall p | p !in paths :: DigestOf(a, p) == DigestOf(b, p)
  }

  /** Every path keeps what it held, or holds the new content of a change to it. */
  ghost predicate OnlyForward(a: Files, b: Files, changes: seq<FileChange>) {
    forall p | DigestOf(b, p) != DigestOf(a, p) ::
      exists i :: 0 <= i < |changes| && changes[i].path == p && DigestOf(b, p) == Of(changes[i].after)
  }

  datatype Status = Done | Conflict | Crashed | Declined

  /** An atomic write: of one file, or of the journal. */
  datatype Write = Put(path: Path, content: Content) | Log(changes: seq<FileChange>)

  /** What a disk holds. `fuel` is the number of writes before the next failure; the write that fails reaches its name
      nevertheless if it `lands`, and nothing is written after it. */
  datatype Medium = Medium(files: Files, journal: seq<FileChange>, fuel: nat, lands: bool, failed: bool)

  ghost function Applied(m: Medium, w: Write): Medium {
    match w
    case Put(p, body) => m.(files := m.files[p := body])
    case Log(changes) => m.(journal := changes)
  }

  ghost function Written(m: Medium, w: Write): Medium {
    if m.failed then m
    else if m.fuel > 0 then Applied(m, w).(fuel := m.fuel - 1)
    else (if m.lands then Applied(m, w) else m).(failed := true)
  }

  ghost function AllWritten(m: Medium, ws: seq<Write>): Medium {
    if ws == [] then m else Written(AllWritten(m, ws[..|ws| - 1]), ws[|ws| - 1])
  }

  lemma OneMore(m: Medium, ws: seq<Write>, w: Write)
    ensures AllWritten(m, ws + [w]) == Written(AllWritten(m, ws), w)
  {
    assert (ws + [w])[..|ws|] == ws;
  }

  lemma {:induction false} InTurn(m: Medium, ws: seq<Write>, us: seq<Write>)
    ensures AllWritten(m, ws + us) == AllWritten(AllWritten(m, ws), us)
    ensures AllWritten(m, ws).failed ==> AllWritten(m, ws + us) == AllWritten(m, ws)
  {
    if us == [] {
      assert ws + us == ws;
    } else {
      InTurn(m, ws, us[..|us| - 1]);
      assert ws + us == (ws + us[..|us| - 1]) + [us[|us| - 1]];
      OneMore(m, ws + us[..|us| - 1], us[|us| - 1]);
    }
  }

  /** The writes that publish the changes whose targets do not hold their new content yet. */
  ghost function Pending(files: Files, changes: seq<FileChange>): seq<Write> {
    if changes == [] then []
    else
      var init, c := changes[..|changes| - 1], changes[|changes| - 1];
      Pending(files, init) + (if DigestOf(files, c.path) == Of(c.after) then [] else [Put(c.path, c.after)])
  }

  lemma PendingStep(files: Files, changes: seq<FileChange>, c: FileChange)
    ensures Pending(files, changes + [c])
            == if DigestOf(files, c.path) == Of(c.after) then Pending(files, changes)
               else Pending(files, changes) + [Put(c.path, c.after)]
  {
    assert (changes + [c])[..|changes|] == changes;
  }

  /** The writes for the first changes come first. */
  lemma {:induction false} PendingFirst(files: Files, changes: seq<FileChange>, n: nat)
    requires n <= |changes|
    ensures Pending(files, changes[..n]) <= Pending(files, changes)
  {
    if n < |changes| {
      PendingFirst(files, changes[..|changes| - 1], n);
      assert changes[..|changes| - 1][..n] == changes[..n];
    } else {
      assert changes[..n] == changes;
    }
  }

  /** Only what a change names matters. */
  lemma {:induction false} PendingSame(a: Files, b: Files, changes: seq<FileChange>)
    requires forall c | c in changes :: DigestOf(a, c.path) == DigestOf(b, c.path)
    ensures Pending(a, changes) == Pending(b, changes)
  {
    if changes != [] {
      PendingSame(a, b, changes[..|changes| - 1]);
      assert changes[|changes| - 1] in changes;
    }
  }

  /** A disk that has failed stays as it is. */
  lemma CutThere(m: Medium, ws: seq<Write>, all: seq<Write>)
    requires ws <= all
    ensures AllWritten(m, ws).failed ==> AllWritten(m, all) == AllWritten(m, ws)
    ensures AllWritten(m, all) == AllWritten(AllWritten(m, ws), all[|ws|..])
  {
    InTurn(m, ws, all[|ws|..]);
    assert ws + all[|ws|..] == all;
  }

  /** The disk of one setup directory: its files, and the journal with the transaction that must be finished. */
  class Disk {
    var files: Files
    var journal: seq<FileChange>
    var fuel: nat
    var lands: bool

    ghost function Now(failed: bool): Medium
      reads this
    {
      Medium(files, journal, fuel, lands, failed)
    }

    /** `atomicWrite`: temporary file, sync, rename, and sync of the directory. A failure before the rename changes
        nothing, one behind it leaves the new content. */
    method AtomicWrite(p: Path, body: Content) returns (ok: bool)
      modifies this`files, this`fuel
      ensures ok <==> old(fuel) > 0
      ensures ok ==> files == old(files)[p := body] && fuel == old(fuel) - 1
      ensures !ok ==> files == (if lands then old(files)[p := body] else old(files)) && fuel == old(fuel)
      ensures Now(!ok) == Written(old(Now(false)), Put(p, body))
    {
      ok := fuel > 0;
      if ok || lands {
        files := files[p := body];
      }
      fuel := if ok then fuel - 1 else fuel;
    }

    /** The journal is one file, written like any other. */
    method Save(changes: seq<FileChange>) returns (ok: bool)
      modifies this`journal, this`fuel
      ensures ok <==> old(fuel) > 0
      ensures ok ==> journal == changes && fuel == old(fuel) - 1
      ensures !ok ==> journal == (if lands then changes else old(journal)) && fuel == old(fuel)
      ensures Now(!ok) == Written(old(Now(false)), Log(changes))
    {
      ok := fuel > 0;
      if ok || lands {
        journal := changes;
      }
      fuel := if ok then fuel - 1 else fuel;
    }

    /** The check phase of `publishChanges`: every target holds its old or new content and every staged copy is intact.
        */
    method CheckAll(changes: seq<FileChange>) returns (ok: bool)
      ensures ok == AllResumable(files, changes)
    {
      for n := 0 to |changes|
        invariant forall i | 0 <= i < n :: Resumable(files, changes[i])
      {
        var c := changes[n];
        var got := DigestOf(files, c.path);
        if got != c.before && got != Of(c.after) {
          return false;
        }
        if DigestOf(files, c.staged) != Of(c.after) {
          return false;
        }
      }
      return true;
    }

    /** `publishChanges`. A target with foreign content found by the check phase means that nothing is written at all.
        Otherwise the targets that differ are written in order, until a write fails: every target keeps or gets its new
        content, whatever the point of a crash, and once all writes succeed every target holds it. */
    method PublishChanges(changes: seq<FileChange>) returns (status: Status)
      requires WellFormed(changes)
      modifies this`files, this`fuel
      ensures status == Conflict <==> !AllResumable(old(files), changes)
      ensures status == Conflict ==> files == old(files) && fuel == old(fuel)
      ensures status != Declined && (status == Crashed ==> fuel == 0)
      ensures status != Conflict ==> AllResumable(files, changes) && SameOutside(old(files), files, PathsOf(changes))
      ensures status == Done ==> AllPublished(files, changes)
      ensures OnlyForward(old(files), files, changes)
      ensures status == Done ==> old(fuel) - |changes| <= fuel <= old(fuel)
      ensures status != Conflict && old(fuel) >= |changes| ==> status == Done
      ensures status != Conflict ==>
                Now(status == Crashed) == AllWritten(old(Now(false)), Pending(old(files), changes))
    {
      hide Resumable, AllWritten, Written, Pending;
      ghost var m, start := Now(false), files;
      var ok := CheckAll(changes);
      if !ok {
        return Conflict;
      }
      NoneWritten(m, files);
      for n := 0 to |changes|
        invariant Now(false) == AllWritten(m, Pending(start, changes[..n]))
        invariant forall i | n <= i < |changes| :: DigestOf(files, changes[i].path) == DigestOf(start, changes[i].path)
        invariant AllResumable(files, changes) && SameOutside(old(files), files, PathsOf(changes))
        invariant old(fuel) - n <= fuel <= old(fuel)
        invariant AllPublished(files, changes[..n]) && OnlyForward(old(files), files, changes)
      {
        var c := changes[n];
        IsStaged(files, changes, n);
        var got := DigestOf(files, c.path);
        assert changes[..n + 1] == changes[..n] + [c];
        PendingStep(start, changes[..n], c);
        if got != Of(c.after) {
          ghost var before := files;
          WriteKeeps(before, changes, n);
          OneMore(m, Pending(start, changes[..n]), Put(c.path, c.after));
          ok := AtomicWrite(c.path, files[c.staged]);
          if !ok {
            SameAsBefore(before, PathsOf(changes));
            PendingFirst(start, changes, n + 1);
            CutThere(m, Pending(start, changes[..n + 1]), Pending(start, changes));
            return Crashed;
          }
        }
      }
      assert changes[..|changes|] == changes;
      return Done;
    }
  }

  lemma NoneWritten(m: Medium, files: Files)
    ensures AllWritten(m, []) == m && Pending(files, []) == []
  {
  }

  lemma IsStaged(files: Files, changes: seq<FileChange>, n: nat)
    requires AllResumable(files, changes) && n < |changes|
    ensures changes[n].staged in files && files[changes[n].staged] == changes[n].after
  {
    assert Resumable(files, changes[n]);
  }

  lemma SameAsBefore(files: Files, paths: set<Path>)
    ensures SameOutside(files, files, paths)
  {
  }

  /** Writing one target its new content leaves every change resumable and undoes none. */
  lemma WriteKeeps(files: Files, changes: seq<FileChange>, n: nat)
    requires WellFormed(changes) && AllResumable(files, changes) && n < |changes|
    ensures var t := files[changes[n].path := changes[n].after];
            && AllResumable(t, changes) && SameOutside(files, t, PathsOf(changes))
            && (AllPublished(files, changes[..n]) ==> AllPublished(t, changes[..n + 1]))
  {
    var t := files[changes[n].path := changes[n].after];
    assert changes[n] in changes;
    forall i | 0 <= i < |changes|
      ensures Resumable(t, changes[i])
    {
      assert Resumable(files, changes[i]);
    }
  }

  // ---------------------------------------------------------------- the whole transaction

  datatype Wanted = Wanted(name: string, content: Content)

  ghost predicate DistinctNames(files: seq<Wanted>) {
    forall i, j | 0 <= i < j < |files| :: files[i].name != files[j].name
  }

  /** What a transaction of `workspace` has staged for the first `n` wanted files. */
  ghost predicate StagedFor(files: Files, wanted: seq<Wanted>, workspace: nat, changes: seq<FileChange>, n: nat)
    requires n <= |wanted|
  {
    && WellFormed(changes) && AllResumable(files, changes)
    && (forall c | c in changes :: StagedChange(wanted, workspace, c, n))
    && (forall i | 0 <= i < n :: Satisfied(files, wanted[i], changes))
  }

  ghost predicate Private(p: Path, workspace: nat) {
    !p.Target? && p.workspace == workspace
  }

  /** Only private files of the workspace were added. */
  ghost predicate OnlyPrivate(a: Files, b: Files, workspace: nat) {
    forall p | !Private(p, workspace) :: DigestOf(a, p) == DigestOf(b, p)
  }

  /** A change that an earlier step staged: for one of the first `n` wanted files. */
  ghost predicate StagedChange(wanted: seq<Wanted>, workspace: nat, c: FileChange, n: nat)
    requires n <= |wanted|
  {
    exists i :: 0 <= i < n && c.path == Target(wanted[i].name) && c.after == wanted[i].content
                && c.staged == Staged(workspace, i) && c.before != Of(c.after)
  }

  ghost predicate Satisfied(files: Files, w: Wanted, changes: seq<FileChange>) {
    DigestOf(files, Target(w.name)) == Of(w.content) || exists c ::
      c in changes && c.path == Target(w.name) && c.after == w.content
  }

  lemma StillStaged(before: Files, after: Files, wanted: seq<Wanted>, workspace: nat, c: FileChange, n: nat)
    requires n <= |wanted| && StagedChange(wanted, workspace, c, n) && Resumable(before, c)
             && OnlyPrivate(before, after, workspace)
    requires forall i | 0 <= i < n :: DigestOf(after, Staged(workspace, i)) == DigestOf(before, Staged(workspace, i))
    ensures Resumable(after, c) && (n < |wanted| ==> StagedChange(wanted, workspace, c, n + 1))
  {
    var i :| 0 <= i < n && c.path == Target(wanted[i].name) && c.after == wanted[i].content
             && c.staged == Staged(workspace, i) && c.before != Of(c.after);
  }

  lemma StillSatisfied(before: Files, after: Files, workspace: nat, w: Wanted, changes: seq<FileChange>, c: FileChange)
    requires Satisfied(before, w, changes) && OnlyPrivate(before, after, workspace)
    ensures Satisfied(after, w, changes + [c])
  {
    if DigestOf(before, Target(w.name)) != Of(w.content) {
      var d :| d in changes && d.path == Target(w.name) && d.after == w.content;
      assert d in changes + [c];
    }
  }

  /** The new change joins well: its target and its staged copy are its own. */
  lemma JoinsWell(wanted: seq<Wanted>, workspace: nat, changes: seq<FileChange>, n: nat, c: FileChange)
    requires DistinctNames(wanted) && n < |wanted| && WellFormed(changes) && forall d | d in changes ::
               StagedChange(wanted, workspace, d, n)
    requires c.path == Target(wanted[n].name) && c.staged == Staged(workspace, n)
    ensures WellFormed(changes + [c])
  {
    forall d | d in changes
      ensures d.path != c.path && d.staged != c.staged
    {
      var i :| 0 <= i < n && d.path == Target(wanted[i].name) && d.after == wanted[i].content
               && d.staged == Staged(workspace, i) && d.before != Of(d.after);
    }
  }

  lemma StageOne(before: Files, after: Files, wanted: seq<Wanted>, workspace: nat, changes: seq<FileChange>, n: nat,
                 c: FileChange)
    requires DistinctNames(wanted) && n < |wanted| && StagedFor(before, wanted, workspace, changes, n)
    requires OnlyPrivate(before, after, workspace)
    requires forall i | 0 <= i < n :: DigestOf(after, Staged(workspace, i)) == DigestOf(before, Staged(workspace, i))
    requires DigestOf(after, Staged(workspace, n)) == Of(wanted[n].content)
    requires DigestOf(before, Target(wanted[n].name)) != Of(wanted[n].content)
    requires c == FileChange(Target(wanted[n].name), DigestOf(before, Target(wanted[n].name)), wanted[n].content,
                             Staged(workspace, n))
    ensures StagedFor(after, wanted, workspace, changes + [c], n + 1)
  {
    var all := changes + [c];
    JoinsWell(wanted, workspace, changes, n, c);
    NewlyStaged(after, wanted, workspace, changes, n, c);
    hide WellFormed, DistinctNames, StagedChange, Satisfied, Resumable;
    forall k | 0 <= k < |changes|
      ensures Resumable(after, changes[k]) && StagedChange(wanted, workspace, changes[k], n + 1)
    {
      assert changes[k] in changes;
      StillStaged(before, after, wanted, workspace, changes[k], n);
    }
    forall i | 0 <= i < n
      ensures Satisfied(after, wanted[i], all)
    {
      StillSatisfied(before, after, workspace, wanted[i], changes, c);
    }
    SameTarget(before, after, workspace, c.path);
  }

  lemma SameTarget(before: Files, after: Files, workspace: nat, p: Path)
    requires OnlyPrivate(before, after, workspace) && p.Target?
    ensures DigestOf(after, p) == DigestOf(before, p)
  {
  }

  lemma NewlyStaged(files: Files, wanted: seq<Wanted>, workspace: nat, changes: seq<FileChange>, n: nat, c: FileChange)
    requires n < |wanted| && c.path == Target(wanted[n].name) && c.after == wanted[n].content
             && c.staged == Staged(workspace, n)
    requires c.before != Of(c.after) && DigestOf(files, c.staged) == Of(c.after)
    ensures StagedChange(wanted, workspace, c, n + 1) && Satisfied(files, wanted[n], changes + [c])
    ensures DigestOf(files, c.path) == c.before ==> Resumable(files, c)
  {
    assert c in changes + [c];
  }

  /** The old content of the first `n` wanted files that differ is kept in private files. */
  ghost predicate BackedUp(first: Files, files: Files, wanted: seq<Wanted>, workspace: nat, n: nat)
    requires n <= |wanted|
  {
    forall i | 0 <= i < n && DigestOf(first, Target(wanted[i].name)) != Of(wanted[i].content)
               && DigestOf(first, Target(wanted[i].name)).Of? ::
      DigestOf(files, Backup(workspace, i)) == DigestOf(first, Target(wanted[i].name))
  }

  /** The private copies of a wanted file that differs: of its old content, if it has any, and of the new one. */
  ghost function Copies(files: Files, w: Wanted, workspace: nat, n: nat): seq<Write> {
    var before := DigestOf(files, Target(w.name));
    if before == Of(w.content) then []
    else
      var copy := [Put(Staged(workspace, n), w.content)];
      if before.Of? then [Put(Backup(workspace, n), before.content)] + copy else copy
  }

  ghost function Staging(files: Files, wanted: seq<Wanted>, workspace: nat): seq<Write> {
    if wanted == [] then []
    else
      var n := |wanted| - 1;
      Staging(files, wanted[..n], workspace) + Copies(files, wanted[n], workspace, n)
  }

  /** The change that a wanted file calls for, if it differs. */
  ghost function ChangeOf(files: Files, w: Wanted, workspace: nat, n: nat): seq<FileChange> {
    var before := DigestOf(files, Target(w.name));
    if before == Of(w.content) then [] else [FileChange(Target(w.name), before, w.content, Staged(workspace, n))]
  }

  ghost function ChangesFor(files: Files, wanted: seq<Wanted>, workspace: nat): seq<FileChange> {
    if wanted == [] then []
    else
      var n := |wanted| - 1;
      ChangesFor(files, wanted[..n], workspace) + ChangeOf(files, wanted[n], workspace, n)
  }

  lemma StagingStep(files: Files, wanted: seq<Wanted>, workspace: nat, n: nat)
    requires n < |wanted|
    ensures Staging(files, wanted[..n + 1], workspace)
            == Staging(files, wanted[..n], workspace) + Copies(files, wanted[n], workspace, n)
    ensures ChangesFor(files, wanted[..n + 1], workspace)
            == ChangesFor(files, wanted[..n], workspace) + ChangeOf(files, wanted[n], workspace, n)
  {
    assert wanted[..n + 1][..n] == wanted[..n];
  }

  lemma NoneStaged(m: Medium, files: Files, workspace: nat)
    ensures AllWritten(m, []) == m && Staging(files, [], workspace) == [] && ChangesFor(files, [], workspace) == []
  {
  }

  /** The copies for the first files come first. */
  lemma {:induction false} StagingFirst(files: Files, wanted: seq<Wanted>, workspace: nat, n: nat)
    requires n <= |wanted|
    ensures Staging(files, wanted[..n], workspace) <= Staging(files, wanted, workspace)
  {
    if n < |wanted| {
      StagingFirst(files, wanted[..|wanted| - 1], workspace, n);
      assert wanted[..|wanted| - 1][..n] == wanted[..n];
    } else {
      assert wanted[..n] == wanted;
    }
  }

  /** A change that is staged differs from what its target holds. */
  lemma {:induction false} AllDiffer(files: Files, wanted: seq<Wanted>, workspace: nat)
    ensures forall c | c in ChangesFor(files, wanted, workspace) :: c.path.Target?
    ensures ChangesFor(files, wanted, workspace) == [] <==> AllWanted(files, wanted)
  {
    if wanted != [] {
      var n := |wanted| - 1;
      AllDiffer(files, wanted[..n], workspace);
      assert wanted == wanted[..n] + [wanted[n]];
    }
  }

  /** The private copies of one file, until a write fails. */
  method StageFile(disk: Disk, workspace: nat, n: nat, w: Wanted, before: Digest) returns (ok: bool)
    requires before == DigestOf(disk.files, Target(w.name)) != Of(w.content)
    modifies disk`files, disk`fuel
    ensures disk.Now(!ok) == AllWritten(old(disk.Now(false)), Copies(old(disk.files), w, workspace, n))
    ensures OnlyPrivate(old(disk.files), disk.files, workspace) && (!ok ==> disk.fuel == 0)
    ensures old(disk.fuel) - 2 <= disk.fuel <= old(disk.fuel) && (old(disk.fuel) >= 2 ==> ok)
    ensures ok ==> DigestOf(disk.files, Staged(workspace, n)) == Of(w.content)
    ensures ok && before.Of? ==> DigestOf(disk.files, Backup(workspace, n)) == before
    ensures forall p | p != Staged(workspace, n) && p != Backup(workspace, n) ::
              DigestOf(disk.files, p) == DigestOf(old(disk.files), p)
  {
    hide AllWritten, Written;
    ghost var m := disk.Now(false);
    ghost var copy := Put(Staged(workspace, n), w.content);
    OneWritten(m, copy);
    if before.Of? {
      TwoWritten(m, Put(Backup(workspace, n), before.content), copy);
    }
    if before.Of? {
      ok := disk.AtomicWrite(Backup(workspace, n), before.content);
      if !ok {
        return;
      }
    }
    ok := disk.AtomicWrite(Staged(workspace, n), w.content);
  }

  /** `stageChanges`: a private copy of the old and of the new content of every file that differs, and of no other. */
  method StageChanges(disk: Disk, workspace: nat, wanted: seq<Wanted>) returns (changes: seq<FileChange>, ok: bool)
    requires DistinctNames(wanted)
    modifies disk`files, disk`fuel
    ensures OnlyPrivate(old(disk.files), disk.files, workspace) && disk.fuel <= old(disk.fuel)
    ensures ok ==> StagedFor(disk.files, wanted, workspace, changes, |wanted|)
    ensures !ok ==> disk.fuel == 0
    ensures changes != [] ==> !AllWanted(old(disk.files), wanted)
    ensures ok ==> BackedUp(old(disk.files), disk.files, wanted, workspace, |wanted|)
    ensures AllWanted(old(disk.files), wanted) ==> ok && disk.files == old(disk.files)
    ensures |changes| <= |wanted|
            && (old(disk.fuel) >= 2 * |wanted| ==> ok && disk.fuel >= old(disk.fuel) - 2 * |wanted|)
    ensures disk.Now(!ok) == AllWritten(old(disk.Now(false)), Staging(old(disk.files), wanted, workspace))
    ensures ok ==> changes == ChangesFor(old(disk.files), wanted, workspace)
  {
    hide StagedFor, AllWritten, Written, Staging, ChangesFor, Copies;
    changes, ok := [], true;
    ghost var m, start := disk.Now(false), disk.files;
    StagedNone(disk.files, wanted, workspace);
    NoneStaged(m, start, workspace);
    for n := 0 to |wanted|
      invariant OnlyPrivate(old(disk.files), disk.files, workspace) && disk.fuel <= old(disk.fuel)
      invariant StagedFor(disk.files, wanted, workspace, changes, n)
      invariant |changes| <= n && disk.fuel >= old(disk.fuel) - 2 * n
      invariant BackedUp(old(disk.files), disk.files, wanted, workspace, n)
      invariant changes != [] ==>
                  exists i :: 0 <= i < n && DigestOf(old(disk.files), Target(wanted[i].name)) != Of(wanted[i].content)
      invariant changes == [] ==> disk.files == old(disk.files)
      invariant disk.Now(false) == AllWritten(m, Staging(start, wanted[..n], workspace))
      invariant changes == ChangesFor(start, wanted[..n], workspace) && ok
    {
      var w := wanted[n];
      var before := DigestOf(disk.files, Target(w.name));
      SameTarget(old(disk.files), disk.files, workspace, Target(w.name));
      StagingStep(start, wanted, workspace, n);
      if before == Of(w.content) {
        StageSame(disk.files, wanted, workspace, changes, n);
        NoCopies(start, w, workspace, n);
        assert Staging(start, wanted[..n], workspace) + [] == Staging(start, wanted[..n], workspace);
        continue;
      }
      ghost var first := disk.files;
      ok := StageFile(disk, workspace, n, w, before);
      SameCopies(start, first, w, workspace, n);
      InTurn(m, Staging(start, wanted[..n], workspace), Copies(start, w, workspace, n));
      if !ok {
        StagingFirst(start, wanted, workspace, n + 1);
        CutThere(m, Staging(start, wanted[..n + 1], workspace), Staging(start, wanted, workspace));
        return;
      }
      var c := FileChange(Target(w.name), before, w.content, Staged(workspace, n));
      StageOne(first, disk.files, wanted, workspace, changes, n, c);
      changes := changes + [c];
    }
    assert wanted[..|wanted|] == wanted;
  }

  lemma OneWritten(m: Medium, w: Write)
    ensures AllWritten(m, [w]) == Written(m, w)
  {
    assert [w][..0] == [];
  }

  lemma TwoWritten(m: Medium, w: Write, u: Write)
    ensures AllWritten(m, [w] + [u]) == Written(Written(m, w), u)
    ensures Written(m, w).failed ==> AllWritten(m, [w] + [u]) == Written(m, w)
  {
    OneWritten(m, w);
    OneMore(m, [w], u);
  }

  lemma NoCopies(files: Files, w: Wanted, workspace: nat, n: nat)
    requires DigestOf(files, Target(w.name)) == Of(w.content)
    ensures Copies(files, w, workspace, n) == []
  {
  }

  lemma SameCopies(a: Files, b: Files, w: Wanted, workspace: nat, n: nat)
    requires DigestOf(a, Target(w.name)) == DigestOf(b, Target(w.name))
    ensures Copies(a, w, workspace, n) == Copies(b, w, workspace, n)
  {
  }

  lemma StagedNone(files: Files, wanted: seq<Wanted>, workspace: nat)
    ensures StagedFor(files, wanted, workspace, [], 0)
  {
  }

  lemma StageSame(files: Files, wanted: seq<Wanted>, workspace: nat, changes: seq<FileChange>, n: nat)
    requires n < |wanted| && StagedFor(files, wanted, workspace, changes, n)
    requires DigestOf(files, Target(wanted[n].name)) == Of(wanted[n].content)
    ensures StagedFor(files, wanted, workspace, changes, n + 1)
  {
    forall c | c in changes
      ensures StagedChange(wanted, workspace, c, n + 1)
    {
      var i :| 0 <= i < n && c.path == Target(wanted[i].name) && c.after == wanted[i].content
               && c.staged == Staged(workspace, i) && c.before != Of(c.after);
    }
  }

  ghost predicate AllWanted(files: Files, wanted: seq<Wanted>) {
    forall i | 0 <= i < |wanted| :: DigestOf(files, Target(wanted[i].name)) == Of(wanted[i].content)
  }

  /** Every staged change is for a wanted file, and carries its content. */
  lemma StagedTarget(files: Files, wanted: seq<Wanted>, workspace: nat, changes: seq<FileChange>, c: FileChange)
    requires StagedFor(files, wanted, workspace, changes, |wanted|) && c in changes
    ensures c.path in TargetsOf(wanted)
    ensures DistinctNames(wanted) ==>
              forall i | 0 <= i < |wanted| && c.path == Target(wanted[i].name) :: c.after == wanted[i].content
  {
    var i :| 0 <= i < |wanted| && c.path == Target(wanted[i].name) && c.after == wanted[i].content
             && c.staged == Staged(workspace, i) && c.before != Of(c.after);
    assert wanted[i] in wanted;
    hide StagedFor;
  }

  /** Publishing what was staged gives every wanted file its content: those that were staged, and those that already
      had it. */
  lemma PublishedWanted(before: Files, after: Files, wanted: seq<Wanted>, workspace: nat, changes: seq<FileChange>)
    requires DistinctNames(wanted) && StagedFor(before, wanted, workspace, changes, |wanted|)
    requires SameOutside(before, after, PathsOf(changes)) && AllPublished(after, changes)
    ensures AllWanted(after, wanted)
  {
    forall i | 0 <= i < |wanted|
      ensures DigestOf(after, Target(wanted[i].name)) == Of(wanted[i].content)
    {
      var p := Target(wanted[i].name);
      if p in PathsOf(changes) {
        var k :| 0 <= k < |changes| && changes[k].path == p;
        StagedTarget(before, wanted, workspace, changes, changes[k]);
      } else {
        WantedOrStaged(before, wanted, workspace, changes, i);
      }
    }
    hide StagedFor;
  }

  lemma WantedOrStaged(files: Files, wanted: seq<Wanted>, workspace: nat, changes: seq<FileChange>, i: nat)
    requires StagedFor(files, wanted, workspace, changes, |wanted|) && i < |wanted|
             && Target(wanted[i].name) !in PathsOf(changes)
    ensures DigestOf(files, Target(wanted[i].name)) == Of(wanted[i].content)
  {
  }

  /** What a restarted setup can rely on: the transaction in the journal can be finished. */
  ghost predicate Recoverable(disk: Disk)
    reads disk
  {
    WellFormed(disk.journal) && AllResumable(disk.files, disk.journal)
  }

  ghost function TargetsOf(wanted: seq<Wanted>): set<Path> {
    set w | w in wanted :: Target(w.name)
  }

  /** Targets outside a set of paths are as they were. */
  ghost predicate Untouched(a: Files, b: Files, paths: set<Path>) {
    forall p: Path | p.Target? && p !in paths :: DigestOf(a, p) == DigestOf(b, p)
  }

  lemma OnlyThose(a: Files, b: Files, c: Files, wanted: seq<Wanted>, workspace: nat, changes: seq<FileChange>,
                  paths: set<Path>)
    requires Untouched(a, b, paths) && SameOutside(b, c, PathsOf(changes))
             && StagedFor(b, wanted, workspace, changes, |wanted|)
    ensures Untouched(a, c, paths + TargetsOf(wanted))
  {
    forall d | d in changes
      ensures d.path in TargetsOf(wanted)
    {
      StagedTarget(b, wanted, workspace, changes, d);
    }
    hide StagedFor, TargetsOf;
  }

  lemma StagedIsResumable(files: Files, wanted: seq<Wanted>, workspace: nat, changes: seq<FileChange>)
    requires StagedFor(files, wanted, workspace, changes, |wanted|)
    ensures WellFormed(changes) && AllResumable(files, changes)
    ensures changes == [] ==> AllWanted(files, wanted)
  {
  }

  /** The writes that finish an unfinished transaction. */
  ghost function Finishing(files: Files, journal: seq<FileChange>): seq<Write> {
    if journal == [] then [] else Pending(files, journal) + [Log([])]
  }

  /** The writes of a new transaction: the private copies, and with approval the journal, the targets that differ, and
      the journal again. */
  ghost function Transacting(files: Files, wanted: seq<Wanted>, workspace: nat, approved: bool): seq<Write> {
    var changes := ChangesFor(files, wanted, workspace);
    Staging(files, wanted, workspace)
    + (if changes == [] || !approved then [] else [Log(changes)] + Pending(files, changes) + [Log([])])
  }

  /** The transaction that an earlier run left behind. It is refused, and nothing changed, exactly when somebody else
      has edited one of its files since. */
  method Finish(disk: Disk) returns (status: Status)
    requires WellFormed(disk.journal)
    modifies disk`files, disk`journal, disk`fuel
    ensures status == Conflict <==> !old(Recoverable(disk))
    ensures status == Conflict ==>
              disk.files == old(disk.files) && disk.journal == old(disk.journal)
              && disk.fuel == old(disk.fuel)
    ensures status != Conflict ==> Recoverable(disk) && (status == Done || (status == Crashed && disk.fuel == 0))
    ensures status == Done ==> disk.journal == []
    ensures disk.journal == old(disk.journal) || disk.journal == []
    ensures old(disk.journal) == [] ==> disk.files == old(disk.files) && disk.fuel == old(disk.fuel) && status == Done
    ensures status == Done ==> AllPublished(disk.files, old(disk.journal))
    ensures status != Conflict && old(disk.fuel) > |old(disk.journal)| ==>
              status == Done && disk.fuel >= old(disk.fuel) - |old(disk.journal)| - 1
    ensures Untouched(old(disk.files), disk.files, old(PathsOf(disk.journal)))
    ensures status != Conflict ==>
              disk.Now(status == Crashed)
              == AllWritten(old(disk.Now(false)), Finishing(old(disk.files), old(disk.journal)))
  {
    hide WellFormed, AllResumable, PathsOf, AllPublished, Written, Pending;
    ghost var m, ws := disk.Now(false), Pending(disk.files, disk.journal);
    status := Done;
    CutThere(m, ws, ws + [Log([])]);
    OneMore(m, ws, Log([]));
    EmptyResumable(disk.files);
    if disk.journal != [] {
      status := disk.PublishChanges(disk.journal);
      if status == Done {
        EmptyResumable(disk.files);
        var ok := disk.Save([]);
        status := if ok then Done else Crashed;
      }
    }
  }

  lemma EmptyResumable(files: Files)
    ensures WellFormed([]) && AllResumable(files, []) && AllPublished(files, [])
  {
  }

  /** The new transaction: staged, journaled, published, cleared. */
  method Transact(disk: Disk, workspace: nat, wanted: seq<Wanted>, approved: bool) returns (status: Status)
    requires disk.journal == [] && DistinctNames(wanted)
    modifies disk`files, disk`journal, disk`fuel
    ensures Recoverable(disk)
    ensures status != Conflict && (status == Crashed ==> disk.fuel == 0) && (status == Declined ==> !approved)
    ensures status == Done ==> AllWanted(disk.files, wanted) && disk.journal == []
    ensures Untouched(old(disk.files), disk.files, TargetsOf(wanted))
    ensures |disk.journal| <= |wanted|
    ensures approved && old(disk.fuel) >= 3 * |wanted| + 2 ==> status == Done
    ensures !approved ==> disk.journal == [] && Untouched(old(disk.files), disk.files, {})
    ensures !approved && status != Crashed ==> (status == Done <==> AllWanted(disk.files, wanted))
    ensures AllWanted(old(disk.files), wanted) ==> status == Done && disk.files == old(disk.files)
    ensures Preserved(old(disk.files), disk.files, wanted, workspace)
    ensures disk.Now(status == Crashed)
            == AllWritten(old(disk.Now(false)), Transacting(old(disk.files), wanted, workspace, approved))
    ensures status == Declined <==>
              status != Crashed && !approved && ChangesFor(old(disk.files), wanted, workspace) != []
  {
    hide AllWritten, Written, Pending, Staging, ChangesFor;
    hide WellFormed, AllResumable, PathsOf, AllPublished, StagedFor, AllWanted, TargetsOf, DistinctNames;
    EmptyResumable(disk.files);
    ghost var first := disk.files;
    var changes, ok := StageChanges(disk, workspace, wanted);
    EmptyResumable(disk.files);
    ghost var second := disk.files;
    NoTargetTouched(first, second, wanted, workspace);
    ghost var m, staging := old(disk.Now(false)), Staging(first, wanted, workspace);
    Onward(m, staging, ChangesFor(first, wanted, workspace), first, second, wanted, workspace);
    if !ok {
      return Crashed;
    }
    StagedIsResumable(disk.files, wanted, workspace, changes);
    if changes == [] {
      return Done;
    }
    if !approved {
      return Declined;
    }
    ok := disk.Save(changes);
    if !ok {
      return Crashed;
    }
    status := disk.PublishChanges(changes);
    OnlyThose(first, second, disk.files, wanted, workspace, changes, {});
    KeptInBackup(first, second, disk.files, wanted, workspace, changes);
    if status == Done {
      PublishedWanted(second, disk.files, wanted, workspace, changes);
      EmptyResumable(disk.files);
      ok := disk.Save([]);
      if !ok {
        return Crashed;
      }
    }
  }

  /** The writes of a transaction behind its private copies, each after those before it. */
  lemma Onward(m: Medium, staging: seq<Write>, changes: seq<FileChange>, first: Files, second: Files,
               wanted: seq<Wanted>, workspace: nat)
    requires staging == Staging(first, wanted, workspace) && changes == ChangesFor(first, wanted, workspace)
    requires OnlyPrivate(first, second, workspace)
    ensures Pending(first, changes) == Pending(second, changes)
    ensures var pending := Pending(first, changes);
            var a := AllWritten(m, staging);
            var b := Written(a, Log(changes));
            var c := AllWritten(b, pending);
            && AllWritten(m, staging + []) == a
            && AllWritten(m, staging + ([Log(changes)] + pending + [Log([])])) == Written(c, Log([]))
            && (a.failed ==> Written(c, Log([])) == a) && (b.failed ==> Written(c, Log([])) == b)
            && (c.failed ==> Written(c, Log([])) == c)
  {
    AllDiffer(first, wanted, workspace);
    var pending := Pending(first, changes);
    PendingSame(first, second, changes);
    assert staging + [] == staging;
    assert staging + ([Log(changes)] + pending + [Log([])]) == staging + [Log(changes)] + pending + [Log([])];
    OneMore(m, staging, Log(changes));
    InTurn(m, staging + [Log(changes)], pending);
    OneMore(m, staging + [Log(changes)] + pending, Log([]));
    InTurn(AllWritten(m, staging + [Log(changes)]), [], pending);
  }

  /** Whatever a wanted file held before it was changed is kept in a private file. */
  ghost predicate Preserved(a: Files, b: Files, wanted: seq<Wanted>, workspace: nat) {
    forall i | 0 <= i < |wanted| && DigestOf(b, Target(wanted[i].name)) != DigestOf(a, Target(wanted[i].name))
               && DigestOf(a, Target(wanted[i].name)).Of? ::
      DigestOf(b, Backup(workspace, i)) == DigestOf(a, Target(wanted[i].name))
  }

  lemma NoTargetTouched(a: Files, b: Files, wanted: seq<Wanted>, workspace: nat)
    requires OnlyPrivate(a, b, workspace)
    ensures Untouched(a, b, {}) && Preserved(a, b, wanted, workspace)
            && (AllWanted(a, wanted) <==> AllWanted(b, wanted))
  {
    forall p: Path | p.Target?
      ensures DigestOf(a, p) == DigestOf(b, p)
    {
      SameTarget(a, b, workspace, p);
    }
  }

  lemma KeptInBackup(a: Files, b: Files, c: Files, wanted: seq<Wanted>, workspace: nat, changes: seq<FileChange>)
    requires OnlyPrivate(a, b, workspace) && BackedUp(a, b, wanted, workspace, |wanted|) && DistinctNames(wanted)
    requires StagedFor(b, wanted, workspace, changes, |wanted|) && OnlyForward(b, c, changes)
    ensures Preserved(a, c, wanted, workspace)
  {
    hide AllResumable, Satisfied;
    forall i | 0 <= i < |wanted| && DigestOf(c, Target(wanted[i].name)) != DigestOf(a, Target(wanted[i].name))
               && DigestOf(a, Target(wanted[i].name)).Of?
      ensures DigestOf(c, Backup(workspace, i)) == DigestOf(a, Target(wanted[i].name))
    {
      var p := Target(wanted[i].name);
      SameTarget(a, b, workspace, p);
      var k :| 0 <= k < |changes| && changes[k].path == p && DigestOf(c, p) == Of(changes[k].after);
      StagedTarget(b, wanted, workspace, changes, changes[k]);
      assert DigestOf(a, p) != Of(wanted[i].content);
      assert forall m | 0 <= m < |changes| :: changes[m].path != Backup(workspace, i);
    }
  }

  lemma UntouchedTogether(a: Files, b: Files, c: Files, p: set<Path>, q: set<Path>)
    requires Untouched(a, b, p) && Untouched(b, c, q)
    ensures Untouched(a, c, p + q)
  {
  }

  /** Enough successful writes for one run: to finish what the journal holds, to stage, journal and publish, to clear.
      */
  ghost function Enough(journal: nat, wanted: nat): nat {
    journal + 1 + 3 * wanted + 2
  }

  /** `publish`: an unfinished transaction first, then the new one, journaled before its first write. An unfinished
      transaction that somebody else's edit has overtaken is refused, with nothing changed. Otherwise,
      wherever it fails,
      the disk stays recoverable; when it is done, every wanted file holds its content; and no other target is ever
      touched. Without approval nothing but the unfinished transaction is published or journaled,
      and the run is declined
      exactly when some wanted file then differs. */
  method Publish(disk: Disk, workspace: nat, wanted: seq<Wanted>, approved: bool) returns (status: Status)
    requires WellFormed(disk.journal) && DistinctNames(wanted)
    modifies disk`files, disk`journal, disk`fuel
    ensures status == Conflict <==> !old(Recoverable(disk))
    ensures status == Conflict ==> disk.files == old(disk.files) && disk.journal == old(disk.journal)
    ensures status != Conflict ==> Recoverable(disk) && (status == Crashed ==> disk.fuel == 0)
    ensures status == Declined ==> !approved
    ensures status == Done ==> AllWanted(disk.files, wanted) && disk.journal == []
    ensures !approved ==>
              && Untouched(old(disk.files), disk.files, old(PathsOf(disk.journal)))
              && (disk.journal == old(disk.journal) || disk.journal == [])
    ensures !approved && (status == Done || status == Declined) ==>
              disk.journal == [] && (status == Done <==> AllWanted(disk.files, wanted))
    ensures |disk.journal| <= Larger(|old(disk.journal)|, |wanted|)
    ensures status != Conflict && approved && old(disk.fuel) >= Enough(|old(disk.journal)|, |wanted|) ==> status == Done
    ensures Untouched(old(disk.files), disk.files, old(PathsOf(disk.journal)) + TargetsOf(wanted))
    ensures old(disk.journal) == [] ==> Preserved(old(disk.files), disk.files, wanted, workspace)
    ensures var m := AllWritten(old(disk.Now(false)), Finishing(old(disk.files), old(disk.journal)));
            status != Conflict ==>
              && disk.Now(status == Crashed)
                 == (if m.failed then m else AllWritten(m, Transacting(m.files, wanted, workspace, approved)))
              && (status == Declined <==>
                    status != Crashed && !approved && ChangesFor(m.files, wanted, workspace) != [])
  {
    hide AllWritten, Transacting, Finishing, ChangesFor;
    hide WellFormed, AllResumable, PathsOf, AllWanted, TargetsOf, Preserved;
    ghost var first := disk.files;
    status := Finish(disk);
    ghost var second := disk.files;
    NothingChanged(first, wanted, workspace);
    if status == Done {
      status := Transact(disk, workspace, wanted, approved);
      UntouchedTogether(first, second, disk.files, old(PathsOf(disk.journal)), TargetsOf(wanted));
    }
  }

  lemma NothingChanged(files: Files, wanted: seq<Wanted>, workspace: nat)
    ensures Preserved(files, files, wanted, workspace)
  {
  }

  ghost function Larger(a: nat, b: nat): nat {
    if a < b then b else a
  }

  /** Running again after every failure: as soon as one run is granted enough writes, all wanted files hold their
      content, wherever the earlier ones were cut; nothing that only this setup edits is ever refused. */
  method RunAgain(disk: Disk, wanted: seq<Wanted>, fuels: seq<nat>, lands: nat -> bool) returns (done: bool)
    requires Recoverable(disk) && DistinctNames(wanted)
    modifies disk
    ensures Recoverable(disk)
    ensures done ==> AllWanted(disk.files, wanted) && disk.journal == []
    ensures (exists f :: f in fuels && f >= Enough(Larger(|old(disk.journal)|, |wanted|), |wanted|)) ==> done
  {
    hide WellFormed, AllResumable, AllWanted, AllWritten, Transacting, Finishing, ChangesFor, PathsOf, TargetsOf,
         Preserved,
         Untouched;
    done := false;
    ghost var bound := Larger(|disk.journal|, |wanted|);
    for n := 0 to |fuels|
      invariant Recoverable(disk) && |disk.journal| <= bound
      invariant forall k | 0 <= k < n :: fuels[k] < Enough(bound, |wanted|)
    {
      disk.fuel, disk.lands := fuels[n], lands(n);
      var status := Publish(disk, n, wanted, true);
      if status == Done {
        return true;
      }
    }
  }
}
