/** The path of one output stream: pipe, capture file, stored object, reader. Bytes arrive exactly or not at all.
    A digest stands for the bytes it was computed from: no two byte strings share one. */
module Streams {
  import opened Basics
  import opened Octets
  import ER = ExecRecords

  datatype Digest = Digest(bytes: Bytes)

  const MAX_STREAM_BYTES: int := 0x4000_0000
  const BUFFER: int := 32 * 1024
  const MAX_EMPTY_READS := 100

  ghost predicate Prefix(a: Bytes, b: Bytes) {
    |a| <= |b| && a == b[..|a|]
  }

  lemma PrefixTransitive(a: Bytes, b: Bytes, c: Bytes)
    requires Prefix(a, b) && Prefix(b, c)
    ensures Prefix(a, c)
  {
  }

  // ---------------------------------------------------------------- capture

  datatype End = More | AtEnd | Broken

  /** One read of the pipe, and what the file does with the write that follows: how much it takes, whether it fails. */
  datatype PipeRead = PipeRead(data: Bytes, end: End, taken: nat, writeFails: bool)

  /** The bytes of the first `n` reads. */
  ghost function Joined(pipe: seq<PipeRead>, n: nat): Bytes
    requires n <= |pipe|
  {
    if n == 0 then [] else Joined(pipe, n - 1) + pipe[n - 1].data
  }

  /** The one problem that counts is the first; later ones change nothing. */
  datatype Problem = WriteFailed | LimitExceeded | PipeFailed | SyncFailed

  /** The file takes all of this read. */
  ghost predicate Taken(r: PipeRead) {
    r.data == [] || (!r.writeFails && r.taken >= |r.data|)
  }

  /** A capture file, and the first thing that went wrong with it. */
  datatype Captured = Captured(file: Bytes, problem: Option<Problem>)

  ghost function Least(a: int, b: int): int {
    if a < b then a else b
  }

  /** A read is stored as far as the limit allows and the file takes it, and only if nothing has gone wrong before; a
      short or failed write is a problem before the limit is. */
  ghost function Stored(c: Captured, r: PipeRead, limit: nat): Captured {
    var room := Least(|r.data|, limit - |c.file|);
    if c.problem.Some? || room < 0 then c
    else
      var short := room > 0 && (r.writeFails || r.taken < room);
      Captured(c.file + r.data[..Least(room, r.taken)],
               if short then Some(WriteFailed) else if |r.data| > room then Some(LimitExceeded) else None)
  }

  /** The file after the first `n` reads. */
  ghost function StoredUpTo(pipe: seq<PipeRead>, limit: nat, n: nat): Captured
    requires n <= |pipe|
  {
    if n == 0 then Captured([], None) else Stored(StoredUpTo(pipe, limit, n - 1), pipe[n - 1], limit)
  }

  /** What one read adds to the file. */
  method StoreChunk(r: PipeRead, limit: nat, start: Bytes, first: Option<Problem>)
    returns (file: Bytes, problem: Option<Problem>)
    requires |start| <= limit
    ensures Captured(file, problem) == Stored(Captured(start, first), r, limit)
    ensures Prefix(start, file) && Prefix(file, start + r.data) && |file| <= limit
    ensures first.Some? ==> file == start && problem == first
    ensures problem.None? ==> file == start + r.data
    ensures problem.None? <==> first.None? && Taken(r) && |start + r.data| <= limit
  {
    file, problem := start, first;
    var keep := |r.data|;
    var overflow := keep > limit - |start|;
    if overflow {
      keep := limit - |start|;
    }
    if keep > 0 && first.None? {
      var written := if r.taken < keep then r.taken else keep;
      file := start + r.data[..written];
      if r.writeFails || written != keep {
        problem := Some(WriteFailed);
      }
    }
    if overflow && problem.None? {
      problem := Some(LimitExceeded);
    }
  }

  ghost predicate AllTaken(pipe: seq<PipeRead>, n: nat)
    requires n <= |pipe|
  {
    forall k | 0 <= k < n :: Taken(pipe[k])
  }

  /** The pipe was read to its proper end and the file took all of it. */
  ghost predicate Sound(pipe: seq<PipeRead>, n: nat)
    requires n <= |pipe|
  {
    AllTaken(pipe, n) && n > 0 && pipe[n - 1].end == AtEnd
  }

  /** `capture`: reading goes on to the end of the pipe even after a problem, but nothing more is stored then. If it
      ends without a problem the file holds exactly what was read; in any case it holds a prefix within the limit. There
      is no problem exactly when the pipe ended properly, its bytes fit, and every write and the sync succeeded. */
  method Capture(pipe: seq<PipeRead>, limit: nat, syncFails: bool)
    returns (file: Bytes, problem: Option<Problem>, n: nat)
    ensures n <= |pipe| && Prefix(file, Joined(pipe, n)) && |file| <= limit
    ensures problem.None? ==> file == Joined(pipe, n) && n > 0 && pipe[n - 1].end == AtEnd
    ensures forall k | 0 <= k < n - 1 :: pipe[k].end == More
    ensures n == |pipe| || (n > 0 && pipe[n - 1].end != More)
    ensures problem.None? <==> Sound(pipe, n) && |Joined(pipe, n)| <= limit && !syncFails
    ensures var c := StoredUpTo(pipe, limit, n);
            && file == c.file
            && problem == if c.problem.Some? then c.problem
                          else if n == 0 || pipe[n - 1].end != AtEnd then Some(PipeFailed)
                          else if syncFails then Some(SyncFailed) else None
  {
    file, problem, n := [], None, 0;
    while true
      invariant n <= |pipe| && Captured(file, problem) == StoredUpTo(pipe, limit, n)
      invariant Prefix(file, Joined(pipe, n)) && |file| <= limit
      invariant problem.None? ==> file == Joined(pipe, n)
      invariant forall k | 0 <= k < n :: pipe[k].end == More
      invariant problem.None? <==> AllTaken(pipe, n) && |Joined(pipe, n)| <= limit
      decreases |pipe| - n
    {
      if n == |pipe| {
        problem := if problem.None? then Some(PipeFailed) else problem;
        break;
      }
      var r := pipe[n];
      ghost var before := file;
      file, problem := StoreChunk(r, limit, file, problem);
      assert Prefix(file, Joined(pipe, n + 1));
      n := n + 1;
      if r.end != More {
        if r.end == Broken && problem.None? {
          problem := Some(PipeFailed);
        }
        break;
      }
    }
    if syncFails && problem.None? {
      problem := Some(SyncFailed);
    }
  }

  // ---------------------------------------------------------------- the recorded stream and its object

  /** The stream entry of an outcome record. */
  datatype Stream = Stream(size: int, digest: Digest, upload: ER.Upload)

  /** `fileStream`: size and digest of the captured file; `readable` is how much of it a failing read still yields. */
  method FileStream(file: Bytes, readable: nat, fails: bool) returns (s: Stream, ok: bool)
    ensures var n := Least(|file|, readable);
            && s == (if n > MAX_STREAM_BYTES then Stream(0, Digest([]), ER.UploadPending)
                     else Stream(n, Digest(file[..n]), ER.UploadPending))
            && (ok <==> !fails && n == |file| && n <= MAX_STREAM_BYTES)
    ensures ok ==> |file| <= MAX_STREAM_BYTES && s == Stream(|file|, Digest(file), ER.UploadPending)
    ensures !fails && readable >= |file| && |file| <= MAX_STREAM_BYTES ==> ok
    ensures s.upload == ER.UploadPending && 0 <= s.size <= MAX_STREAM_BYTES && |s.digest.bytes| == s.size
  {
    s := Stream(0, Digest([]), ER.UploadPending);
    var n := if readable < |file| then readable else |file|;
    if n > MAX_STREAM_BYTES {
      return s, false;
    }
    s := s.(size := n, digest := Digest(file[..n]));
    return s, !fails && n == |file|;
  }

  /** What storage does with one conditional PUT of a stream and with the read that follows an unconfirmed one. */
  datatype Store = Absent | Object(bytes: Bytes)

  /** `PutImmutable` of a captured file: S3 refuses a body that is not of the announced size and digest. */
  method Upload(before: Store, file: Bytes, s: Stream, accepted: bool, answered: bool, readBack: bool)
    returns (after: Store, ok: bool)
    requires s.upload == ER.UploadPending
    ensures before.Object? ==> after == before
    ensures before.Absent? ==> after.Absent? || (after == Object(file) && Digest(file) == s.digest && |file| == s.size)
    ensures ok ==> after.Object? && after.bytes == s.digest.bytes && |after.bytes| == s.size
    ensures before.Absent? && accepted && (answered || readBack) && |file| == s.size && Digest(file) == s.digest ==>
              ok && after == Object(file)
    ensures before.Object? && readBack ==> (ok <==> |before.bytes| == s.size && Digest(before.bytes) == s.digest)
    ensures before.Absent? ==>
              (after.Object? <==> accepted && |file| == s.size && Digest(file) == s.digest)
              && (ok <==> after.Object? && (answered || readBack))
    ensures before.Object? && !readBack ==> !ok
  {
    after := before;
    if before.Absent? && accepted && |file| == s.size && Digest(file) == s.digest {
      after := Object(file);
      if answered {
        return after, true;
      }
    }
    if !readBack || after.Absent? {
      return after, false;
    }
    ok := |after.bytes| == s.size && Digest(after.bytes) == s.digest;
  }

  // ---------------------------------------------------------------- reading it back

  datatype CopyError = CorruptStream | StreamUnavailable | WriteError | Cancelled | StorageFailed

  /** One read of an object's body. A body that misbehaves may claim any count. */
  datatype BodyRead = BodyRead(count: int, data: Bytes, end: End)

  /** The writer's answer: how much it took, and whether it failed. */
  datatype Written = Written(count: int, failed: bool)

  ghost predicate Answers(r: BodyRead) {
    0 <= r.count ==> |r.data| == r.count
  }

  /** What opening the object gives: a body of some size, no body at all, or a failed read. */
  datatype Opening = Opened(size: int) | NoBody | NotOpened

  /** One turn of a copy: whether it was cancelled before, what the body answers, and what the writer does with it. */
  datatype Turn = Turn(cancelled: bool, read: BodyRead, answer: Written)

  /** What a copy comes to: the bytes emitted, the error, the bytes that the body delivered, and whether anything but
      the body's content decided. */
  datatype Copy = Copy(emitted: Bytes, error: Option<CopyError>, delivered: Bytes, disturbed: bool)

  /** One turn ends the copy, or goes on with what has been emitted and the empty reads in a row. */
  datatype Step = Done(copy: Copy) | Going(emitted: Bytes, emptyReads: nat)

  /** Each turn reads no more than one byte beyond the remainder; too much, or an end with too little or the wrong
      digest, is corruption; a read that makes no sense, or the hundredth empty one in a row, is not. */
  ghost function OneTurn(s: Stream, t: Turn, closes: bool, emitted: Bytes, emptyReads: nat): Step {
    var r, w, left := t.read, t.answer, s.size - |emitted|;
    if t.cancelled then Done(Copy(emitted, Some(Cancelled), emitted, true))
    else if r.count < 0 || r.count > Least(BUFFER, left + 1) || !Answers(r) then
      Done(Copy(emitted, Some(StreamUnavailable), emitted, true))
    else
      var valid := Least(r.count, left);
      var delivered := emitted + r.data;
      if valid > 0 && (w.count < 0 || w.count > valid) then Done(Copy(emitted, Some(WriteError), delivered, true))
      else if valid > 0 && (w.failed || w.count != valid) then
        Done(Copy(emitted + r.data[..w.count], Some(WriteError), delivered, true))
      else
        var more := if valid > 0 then emitted + r.data[..valid] else emitted;
        if r.count > valid then Done(Copy(more, Some(CorruptStream), delivered, false))
        else if r.count == 0 && r.end.More? && emptyReads + 1 >= MAX_EMPTY_READS then
          Done(Copy(more, Some(StreamUnavailable), delivered, true))
        else
          match r.end
          case More => Going(more, if r.count > 0 then 0 else emptyReads + 1)
          case Broken => Done(Copy(more, Some(StorageFailed), delivered, true))
          case AtEnd =>
            if |more| != s.size || Digest(more) != s.digest then Done(Copy(more, Some(CorruptStream), delivered, false))
            else Done(Copy(more, if closes then None else Some(StorageFailed), delivered, !closes))
  }

  /** The rest of a copy that has emitted all it was delivered. */
  ghost function CopyFrom(s: Stream, turns: seq<Turn>, closes: bool, emitted: Bytes, emptyReads: nat): Copy
    decreases |turns|
  {
    if turns == [] then Copy(emitted, Some(Cancelled), emitted, true)
    else
      match OneTurn(s, turns[0], closes, emitted, emptyReads)
      case Done(copy) => copy
      case Going(more, empty) => CopyFrom(s, turns[1..], closes, more, empty)
  }

  ghost function Copied(s: Stream, body: Opening, turns: seq<Turn>, closes: bool): Copy {
    if s.size < 0 || s.size > MAX_STREAM_BYTES || s.upload != ER.UploadComplete then
      Copy([], Some(CorruptStream), [], false)
    else if body.NotOpened? then Copy([], Some(StorageFailed), [], true)
    else if body != Opened(s.size) then Copy([], Some(CorruptStream), [], false)
    else CopyFrom(s, turns, closes, [], 0)
  }

  /** `CopyStream`. What is emitted is always a prefix of what the body delivered and never more than the recorded
      size; success means that it has exactly the recorded size and digest. The loop ends however small the reads
      are: each one shortens the remainder, or is one of at most a hundred empty reads in a row. A copy that nobody
      disturbed - no cancellation, failed opening or closing, failing or stalled read, or failing write - decides
      exactly whether the body is the recorded one. */
  method CopyStream(s: Stream, body: Opening, turns: seq<Turn>, closes: bool)
    returns (emitted: Bytes, error: Option<CopyError>, ghost delivered: Bytes, ghost disturbed: bool)
    ensures Copy(emitted, error, delivered, disturbed) == Copied(s, body, turns, closes)
    ensures Prefix(emitted, delivered) && |emitted| <= (if s.size < 0 then 0 else s.size)
    ensures error.None? ==>
              s.upload == ER.UploadComplete && body == Opened(s.size) && |emitted| == s.size
              && Digest(emitted) == s.digest && emitted == delivered
    ensures s.upload != ER.UploadComplete || s.size < 0 || s.size > MAX_STREAM_BYTES || body != Opened(s.size) ==>
              error.Some? && emitted == []
    ensures s.upload == ER.UploadComplete && 0 <= s.size <= MAX_STREAM_BYTES && body == Opened(s.size) && !disturbed ==>
              (error.None? <==> Digest(delivered) == s.digest && |delivered| == s.size)
              && (error.Some? ==> error == Some(CorruptStream))
    ensures s.upload == ER.UploadComplete && 0 <= s.size <= MAX_STREAM_BYTES && body.NotOpened? ==> disturbed
  {
    emitted, delivered, disturbed := [], [], false;
    if s.size < 0 || s.size > MAX_STREAM_BYTES || s.upload != ER.UploadComplete {
      return emitted, Some(CorruptStream), delivered, false;
    }
    if body.NotOpened? {
      return emitted, Some(StorageFailed), delivered, true;
    }
    if body != Opened(s.size) {
      return emitted, Some(CorruptStream), delivered, false;
    }
    var emptyReads, k := 0, 0;
    assert turns[0..] == turns;
    while k < |turns|
      invariant k <= |turns| && emitted == delivered && |emitted| <= s.size && 0 <= emptyReads < MAX_EMPTY_READS
      invariant CopyFrom(s, turns, closes, [], 0) == CopyFrom(s, turns[k..], closes, emitted, emptyReads)
      decreases s.size - |emitted|, MAX_EMPTY_READS - emptyReads
    {
      hide OneTurn;
      assert turns[k..][0] == turns[k] && turns[k..][1..] == turns[k + 1..];
      var done;
      done, emitted, error, emptyReads, delivered, disturbed := TakeTurn(s, turns[k], closes, emitted, emptyReads);
      if done {
        return;
      }
      k := k + 1;
    }
    return emitted, Some(Cancelled), delivered, true;
  }

  /** The body of that loop. A turn that does not end the copy shortens the remainder, or is one more empty read. */
  method TakeTurn(s: Stream, turn: Turn, closes: bool, start: Bytes, emptyBefore: nat)
    returns (done: bool, emitted: Bytes, error: Option<CopyError>, emptyReads: nat, ghost delivered: Bytes,
             ghost disturbed: bool)
    requires |start| <= s.size && emptyBefore < MAX_EMPTY_READS
    ensures OneTurn(s, turn, closes, start, emptyBefore)
            == if done then Done(Copy(emitted, error, delivered, disturbed)) else Going(emitted, emptyReads)
    ensures Prefix(emitted, delivered) && |emitted| <= s.size
    ensures done && error.None? ==> |emitted| == s.size && Digest(emitted) == s.digest && emitted == delivered
    ensures done && !disturbed ==>
              (error.None? <==> Digest(delivered) == s.digest && |delivered| == s.size)
              && (error.Some? ==> error == Some(CorruptStream))
    ensures !done ==>
              && emitted == delivered && emptyReads < MAX_EMPTY_READS
              && (|emitted| > |start| || (emitted == start && emptyReads == emptyBefore + 1))
  {
    emitted, error, emptyReads, delivered, disturbed := start, None, emptyBefore, start, true;
    done := true;
    var read := turn.read;
    if turn.cancelled {
      error := Some(Cancelled);
      return;
    }
    var left := s.size - |start|;
    if read.count < 0 || read.count > (if BUFFER < left + 1 then BUFFER else left + 1) || |read.data| != read.count {
      error := Some(StreamUnavailable);
      return;
    }
    delivered := start + read.data;
    if read.count > 0 {
      emptyReads := 0;
      var valid := if read.count < left then read.count else left;
      if valid > 0 {
        var answer := turn.answer;
        if answer.count < 0 || answer.count > valid {
          error := Some(WriteError);
          return;
        }
        emitted := start + read.data[..answer.count];
        if answer.failed || answer.count != valid {
          error := Some(WriteError);
          return;
        }
      }
      if read.count > valid {
        error, disturbed := Some(CorruptStream), false;
        return;
      }
    } else if read.end.More? {
      emptyReads := emptyReads + 1;
      if emptyReads >= MAX_EMPTY_READS {
        error := Some(StreamUnavailable);
        return;
      }
    }
    match read.end {
      case More => done := false;
      case Broken => error := Some(StorageFailed);
      case AtEnd =>
        if |emitted| != s.size || Digest(emitted) != s.digest {
          error, disturbed := Some(CorruptStream), false;
        } else if closes {
          disturbed := false;
        } else {
          error := Some(StorageFailed);
        }
    }
  }

  /** From the pipe to the reader: when capture ended without a problem and the stream was uploaded and copied
      successfully, the reader emitted exactly the bytes the command wrote, whatever storage returned on the way. */
  lemma ExactDelivery(pipe: seq<PipeRead>, n: nat, file: Bytes, s: Stream, blob: Bytes, emitted: Bytes)
    requires n <= |pipe| && file == Joined(pipe, n)
    requires s.digest == Digest(file) && s.size == |file|
    requires blob == s.digest.bytes
    requires |emitted| == s.size && Digest(emitted) == s.digest
    ensures emitted == Joined(pipe, n) == blob
  {
  }

  /** And when anything failed, an honest object still yields nothing but a prefix of those bytes within the limit. */
  lemma PartialDelivery(pipe: seq<PipeRead>, n: nat, limit: nat, file: Bytes, s: Stream, blob: Bytes, delivered: Bytes,
                        emitted: Bytes)
    requires n <= |pipe| && Prefix(file, Joined(pipe, n)) && |file| <= limit
    requires s.digest == Digest(file) && blob == s.digest.bytes
    requires Prefix(delivered, blob) && Prefix(emitted, delivered)
    ensures Prefix(emitted, Joined(pipe, n)) && |emitted| <= limit
  {
    PrefixTransitive(emitted, delivered, blob);
    PrefixTransitive(emitted, file, Joined(pipe, n));
  }

  /** The whole path in one call: exact whenever it says so, and it says so whenever nothing went wrong. */
  method Convey(pipe: seq<PipeRead>, limit: nat, syncFails: bool, readable: nat, readFails: bool, accepted: bool,
                answered: bool, readBack: bool, reachable: bool, turns: seq<Turn>, closes: bool)
    returns (emitted: Bytes, exact: bool, n: nat)
    ensures n <= |pipe| && (n == |pipe| || (n > 0 && pipe[n - 1].end != More)) && forall k | 0 <= k < n - 1 ::
              pipe[k].end == More
    ensures exact ==>
              emitted == Joined(pipe, n) && |emitted| <= limit && |emitted| <= MAX_STREAM_BYTES && n > 0
              && pipe[n - 1].end == AtEnd
    ensures var file := StoredUpTo(pipe, limit, n).file;
            var copy := Copied(Stream(|file|, Digest(file), ER.UploadComplete),
                               if reachable then Opened(|file|) else NotOpened, turns, closes);
            var kept := !readFails && readable >= |file| && |file| <= MAX_STREAM_BYTES && accepted
                        && (answered || readBack);
            && emitted == (if kept then copy.emitted else [])
            && (exact <==> kept && copy.error.None? && Sound(pipe, n) && |Joined(pipe, n)| <= limit && !syncFails)
            && (Prefix(copy.delivered, file) ==> Prefix(emitted, Joined(pipe, n)) && |emitted| <= limit)
            && var whole := Sound(pipe, n) && |Joined(pipe, n)| <= limit && !syncFails;
               (whole && kept && copy.delivered == file && !copy.disturbed ==> exact)
  {
    hide Copied, Stored, Joined;
    var file, problem;
    file, problem, n := Capture(pipe, limit, syncFails);
    var s, ok := FileStream(file, readable, readFails);
    emitted, exact := [], false;
    if !ok {
      return;
    }
    var stored, uploaded := Upload(Absent, file, s, accepted, answered, readBack);
    if !uploaded {
      return;
    }
    s := s.(upload := ER.UploadComplete);
    var error;
    ghost var delivered, disturbed;
    emitted, error, delivered, disturbed :=
      CopyStream(s, if reachable then Opened(|stored.bytes|) else NotOpened, turns, closes);
    if Prefix(delivered, stored.bytes) {
      PartialDelivery(pipe, n, limit, file, s, stored.bytes, delivered, emitted);
    }
    exact := problem.None? && error.None?;
    if exact {
      ExactDelivery(pipe, n, file, s, stored.bytes, emitted);
    }
  }

  // ---------------------------------------------------------------- what the runner says of the work

  /** How the child ended, as far as it was waited for. */
  datatype Exit = Clean | Signal(number: int) | Code(number: int) | Strange

  datatype Signs = Signs(timedOut: bool, captureFailed: bool, interrupted: bool, childDone: bool, stopped: bool,
                         status: Option<char>)

  function FromExit(e: Exit): (w: ER.Workload)
    ensures e.Clean? ==> w == ER.Exited(0)
    ensures e.Signal? ==> w == ER.Signaled(e.number)
    ensures e.Code? ==> w == if e.number < 0 then ER.WorkloadUnknown else ER.Exited(e.number)
    ensures e.Strange? ==> w == ER.WorkloadUnknown
  {
    match e
    case Clean => ER.Exited(0)
    case Signal(n) => ER.Signaled(n)
    case Code(n) => if n >= 0 then ER.Exited(n) else ER.WorkloadUnknown
    case Strange => ER.WorkloadUnknown
  }

  function KilledBy(w: ER.Workload): (signal: Option<int>)
    ensures signal.Some? <==> w.Signaled?
    ensures signal.Some? ==> w == ER.Signaled(signal.value)
  {
    if w.Signaled? then Some(w.signal) else None
  }

  /** The classification at the end of `Execute`. */
  method Classify(e: Exit, g: Signs, capture: bool) returns (w: ER.Workload, complete: bool)
    requires e.Signal? ==> 1 <= e.number <= 64
    requires e.Code? ==> e.number <= 255
    ensures ER.ValidWorkload(w)
    ensures w.Exited? ==> !g.timedOut && !g.captureFailed && !g.interrupted && g.childDone && !g.stopped
    ensures w == ER.Exited(0) ==>
              (e.Clean? || e == Code(0)) && g.status != Some('S') && g.status != Some('N')
              && g.status != Some('X')
    ensures w.ExecutionTimeout? <==> g.timedOut
    ensures w.CaptureFailed? <==> !g.timedOut && g.captureFailed
    ensures complete <==> capture && !w.CaptureFailed?
    ensures var quiet := !g.timedOut && !g.captureFailed && !g.interrupted && g.childDone && !g.stopped;
            && (quiet && g.status.None? ==> w == FromExit(e))
            && (quiet && g.status == Some('N') ==> w == ER.Exited(127))
               && (quiet && g.status == Some('X') ==> w == ER.Exited(126))
    ensures w.ExecutionTimeout? || w.CaptureFailed? ==>
              (w.killedBy.Some? <==> e.Signal?) && (w.killedBy.Some? ==> e == Signal(w.killedBy.value))
    ensures !g.timedOut && !g.captureFailed ==>
              && (g.interrupted || !g.childDone ==> w == ER.WorkloadUnknown)
              && (!g.interrupted && g.childDone && (g.stopped || g.status == Some('S')) ==> w == ER.RunnerSetupFailed)
              && (!g.interrupted && g.childDone && !g.stopped && g.status.Some? ==>
                    g.status.value in {'S', 'N', 'X'} || w == FromExit(e))
  {
    w, complete := FromExit(e), capture;
    if g.timedOut {
      w := ER.ExecutionTimeout(KilledBy(w));
    } else if g.captureFailed {
      w, complete := ER.CaptureFailed(KilledBy(w)), false;
    } else if g.interrupted || !g.childDone {
      w := ER.WorkloadUnknown;
    } else if g.stopped || g.status == Some('S') {
      w := ER.RunnerSetupFailed;
    } else if g.status == Some('N') {
      w := ER.Exited(127);
    } else if g.status == Some('X') {
      w := ER.Exited(126);
    }
  }
}
