/** The immutable records of one remote command, and when they agree with one another.
    A time is a number of nanoseconds since the zero time, which itself stands for no time at all. */
module ExecRecords {
  import opened Basics

  const SECOND := 1_000_000_000
  const DAY := 86_400 * SECOND
  /** The first instant that RFC 3339 cannot spell with a four-digit year. */
  const END_OF_TIME := 315_537_897_600 * SECOND

  const MIN_RETENTION_DAYS := 2
  const MAX_RETENTION_DAYS := 365

  /** The text of a time; one instant has several spellings, of which the whole-second one is empty here. */
  datatype Stamp = Stamp(nanos: int, spelling: string)

  /** Rounding down to the whole second. */
  function Floor(t: int): (s: int)
    ensures s <= t < s + SECOND && s % SECOND == 0
  {
    t - t % SECOND
  }

  function Timestamp(t: int): Stamp {
    Stamp(Floor(t), "")
  }

  /** Whether a rendered time can be read back: it is not the zero time, and its year has four digits. */
  predicate Readable(s: Stamp) {
    0 < s.nanos < END_OF_TIME
  }

  type Binding = string
  type SSMID = string

  datatype Workload = Exited(code: int) | Signaled(signal: int) | ExecutionTimeout(killedBy: Option<int>)
                    | CaptureFailed(killedBy: Option<int>) | RunnerSetupFailed | WorkloadUnknown

  ghost predicate ValidWorkload(w: Workload) {
    match w
    case Exited(code) => 0 <= code <= 255
    case Signaled(signal) => 1 <= signal <= 64
    case ExecutionTimeout(s) => s.Some? ==> 1 <= s.value <= 64
    case CaptureFailed(s) => s.Some? ==> 1 <= s.value <= 64
    case _ => true
  }

  datatype Stream = Stream(bytes: int, digest: string)
  datatype Upload = UploadPending | UploadComplete | UploadFailed

  /** Everything an outcome says about the work itself. */
  datatype Evidence = Evidence(workload: Workload, captured: bool, stdout: Stream, stderr: Stream)

  datatype Span = Span(submitted: Stamp, expires: Stamp)

  datatype Kind = RequestKind | AcknowledgementKind | StartedKind | OutcomeKind | ResultKind

  datatype Record =
    | Request(binding: Binding, retentionDays: int)
    | Acknowledgement(binding: Binding, ssm: SSMID)
    | Started(binding: Binding, ssm: SSMID, span: Span, at: Stamp)
    | Outcome(binding: Binding, ssm: SSMID, span: Span, finished: Stamp, evidence: Evidence)
    | Result(binding: Binding, ssm: SSMID, span: Span, finished: Stamp, evidence: Evidence,
             published: bool, stdoutUpload: Upload, stderrUpload: Upload, finalized: Stamp)
  {
    function Kind(): Kind {
      match this
      case Request(_, _) => RequestKind
      case Acknowledgement(_, _) => AcknowledgementKind
      case Started(_, _, _, _) => StartedKind
      case Outcome(_, _, _, _, _) => OutcomeKind
      case Result(_, _, _, _, _, _, _, _, _) => ResultKind
    }

    predicate Ended() {
      Outcome? || Result?
    }
  }

  const MAX_STREAM_BYTES := 0x4000_0000

  ghost predicate ValidSpan(s: Span) {
    && Readable(s.submitted) && Readable(s.expires)
    && var life := s.expires.nanos - s.submitted.nanos;
       MIN_RETENTION_DAYS * DAY <= life <= MAX_RETENTION_DAYS * DAY && life % DAY == 0
  }

  ghost predicate ValidStream(s: Stream, emptyDigest: string) {
    0 <= s.bytes <= MAX_STREAM_BYTES && (s.bytes == 0 ==> s.digest == emptyDigest)
  }

  ghost predicate ValidEnd(span: Span, finished: Stamp, e: Evidence, emptyDigest: string) {
    && ValidSpan(span) && Readable(finished) && span.submitted.nanos <= finished.nanos
    && ValidWorkload(e.workload) && ValidStream(e.stdout, emptyDigest) && ValidStream(e.stderr, emptyDigest)
  }

  /** `Record.Validate`, for records whose identities are well formed. */
  ghost predicate ValidRecord(r: Record, emptyDigest: string) {
    match r
    case Request(_, days) => MIN_RETENTION_DAYS <= days <= MAX_RETENTION_DAYS
    case Acknowledgement(_, _) => true
    case Started(_, _, span, at) => ValidSpan(span) && Readable(at)
    && span.submitted.nanos <= at.nanos < span.expires.nanos
    case Outcome(_, _, span, finished, e) => ValidEnd(span, finished, e, emptyDigest)
    case Result(_, _, span, finished, e, published, out, err, finalized) =>
      && ValidEnd(span, finished, e, emptyDigest) && Readable(finalized) && finished.nanos <= finalized.nanos
      && (published ==> !e.workload.WorkloadUnknown? && e.captured && out == UploadComplete && err == UploadComplete)
  }

  /** A record as storage returns it, with the time its object was created. */
  datatype Observed = Observed(record: Record, modified: int)

  /** The retention a record fixes: a request through its creation time and days, a later record by its own text. */
  ghost function SpanOf(o: Observed): Option<Span> {
    match o.record
    case Request(_, days) => Some(Span(Timestamp(o.modified), Timestamp(Floor(o.modified) + days * DAY)))
    case Acknowledgement(_, _) => None
    case _ => Some(o.record.span)
  }

  /** A request is of use only if its creation time can be rendered and read back, and so can its deadline. */
  ghost predicate Usable(o: Observed) {
    o.record.Request? ==> o.modified != 0 && Readable(SpanOf(o).value.submitted) && Readable(SpanOf(o).value.expires)
  }

  ghost function SSMOf(r: Record): Option<SSMID> {
    if r.Request? then None else Some(r.ssm)
  }

  /** Two records name the same binding, SSM command, retention and outcome evidence, as far as both name them. */
  ghost predicate SameFacts(x: Observed, y: Observed) {
    && x.record.binding == y.record.binding
    && (SSMOf(x.record).Some? && SSMOf(y.record).Some? ==> SSMOf(x.record) == SSMOf(y.record))
    && (SpanOf(x).Some? && SpanOf(y).Some? ==> SpanOf(x) == SpanOf(y))
    && (x.record.Ended() && y.record.Ended() ==>
         x.record.finished == y.record.finished && x.record.evidence == y.record.evidence)
  }

  /** Work does not finish before it started. */
  predicate InOrder(x: Observed, y: Observed) {
    x.record.Started? && y.record.Ended() ==> x.record.at.nanos <= y.record.finished.nanos
  }

  ghost predicate Agree(x: Observed, y: Observed) {
    SameFacts(x, y) && InOrder(x, y) && InOrder(y, x)
  }

  /** Nothing is wrong with a collection of records: each is usable and any two agree. */
  ghost predicate Consonant(xs: set<Observed>) {
    (forall x | x in xs :: Usable(x)) && (forall x, y | x in xs && y in xs :: Agree(x, y))
  }
}
