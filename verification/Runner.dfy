/** One command, its submitter, and any number of concurrent or repeated runner invocations over one store.
    A PUT is first sent, then applied at any later moment or never; only an acknowledged creation of the started
    record lets an invocation execute. The worker's clock never goes back; the store stamps objects with a clock of
    its own. */
module Runner {
  import opened Basics
  import opened ExecRecords
  import opened Observe
  import opened Recover

  /** What is fixed for a command: its binding, the SSM command that delivers it, and the configured retention. */
  datatype Command = Command(binding: Binding, ssm: SSMID, days: int, emptyDigest: string)

  datatype Op = Op(run: Option<nat>, number: nat)

  datatype Phase =
    | Waiting(span: Span)
    | ClaimSent(span: Span, op: Op, at: int)
    | Executing(span: Span, op: Op, at: int)
    | OutcomeSent(outcome: Record)
    | Uploading(outcome: Record)
    | ResultSent
    | Over

  datatype Submitter = Idle | RequestSent | Prepared | Submitted | Acknowledged

  datatype State = State(store: map<Kind, Observed>, writer: map<Kind, Op>, network: map<Op, Record>, clock: int,
                         submitter: Submitter, runs: map<nat, Phase>, executed: set<nat>)

  datatype Event =
    | SendRequest(op: Op) | ConfirmRequest | SendCommand | SendAcknowledgement(op: Op)
    | Apply(op: Op, at: int) | Tick(to: int)
    | Invoke(run: nat) | Claim(run: nat, op: Op) | Win(run: nat)
    | SendOutcome(run: nat, op: Op, finished: int, evidence: Evidence) | ConfirmOutcome(run: nat)
    | SendResult(run: nat, op: Op, stdout: Upload, stderr: Upload) | Stop(run: nat)

  ghost predicate In(s: State, run: nat) {
    run in s.runs
  }

  ghost predicate Fresh(s: State, op: Op, run: Option<nat>) {
    op !in s.network && op.run == run
  }

  ghost function Send(s: State, op: Op, r: Record): State {
    s.(network := s.network[op := r])
  }

  ghost function Move(s: State, run: nat, p: Phase): State {
    s.(runs := s.runs[run := p])
  }

  ghost function StartedRecord(c: Command, span: Span, at: int): Record {
    Started(c.binding, c.ssm, span, Timestamp(at))
  }

  ghost function OutcomeRecord(c: Command, span: Span, finished: int, e: Evidence): Record {
    Outcome(c.binding, c.ssm, span, Timestamp(finished), e)
  }

  /** The final record repeats the outcome's evidence; it is published only with complete capture and uploads. */
  ghost function ResultRecord(o: Record, stdout: Upload, stderr: Upload, now: int): Record
    requires o.Outcome?
  {
    var published := !o.evidence.workload.WorkloadUnknown? && o.evidence.captured && stdout == UploadComplete
        && stderr == UploadComplete;
    Result(o.binding, o.ssm, o.span, o.finished, o.evidence, published, stdout, stderr, Timestamp(now))
  }

  /** A request is sent by the submitter, once. */
  ghost predicate RequestSends(c: Command, s: State, op: Op, t: State) {
    s.submitter.Idle? && Fresh(s, op, None) && t == Send(s, op, Request(c.binding, c.days)).(submitter := RequestSent)
  }

  ghost predicate RequestConfirms(s: State, t: State) {
    s.submitter.RequestSent? && RequestKind in s.store && t == s.(submitter := Prepared)
  }

  ghost predicate CommandSends(s: State, t: State) {
    s.submitter.Prepared? && t == s.(submitter := Submitted)
  }

  ghost predicate AcknowledgementSends(c: Command, s: State, op: Op, t: State) {
    s.submitter.Submitted? && Fresh(s, op, None)
    && t == Send(s, op, Acknowledgement(c.binding, c.ssm)).(submitter := Acknowledged)
  }

  /** Storage creates an object once, stamped with a time that RFC 3339 can spell together with its deadline. */
  ghost predicate Applies(s: State, op: Op, at: int, t: State) {
    && op in s.network && s.network[op].Kind() !in s.store && Usable(Observed(s.network[op], at))
    && var k := s.network[op].Kind();
       t == s.(store := s.store[k := Observed(s.network[op], at)], writer := s.writer[k := op])
  }

  ghost predicate Ticks(s: State, to: int, t: State) {
    s.clock <= to && t == s.(clock := to)
  }

  /** An invocation exists only after the command was sent; it reads the request and its configured retention. */
  ghost predicate Invokes(c: Command, s: State, run: nat, t: State) {
    && (s.submitter.Submitted? || s.submitter.Acknowledged?) && !In(s, run)
    && RequestKind in s.store && s.store[RequestKind].record == Request(c.binding, c.days)
    && t == Move(s, run, Waiting(SpanOf(s.store[RequestKind]).value))
  }

  /** The claim is sent once the worker's clock has reached the creation time, and before the deadline. */
  ghost predicate Claims(c: Command, s: State, run: nat, op: Op, t: State) {
    && In(s, run) && s.runs[run].Waiting? && Fresh(s, op, Some(run))
    && var span := s.runs[run].span;
       && span.submitted.nanos <= s.clock < span.expires.nanos
       && t == Move(Send(s, op, StartedRecord(c, span, s.clock)), run, ClaimSent(span, op, s.clock))
  }

  /** Execution needs the acknowledgement of this invocation's own PUT. */
  ghost predicate Wins(s: State, run: nat, t: State) {
    && In(s, run) && s.runs[run].ClaimSent?
    && var p := s.runs[run];
       && StartedKind in s.writer && s.writer[StartedKind] == p.op
       && t == Move(s, run, Executing(p.span, p.op, p.at)).(executed := s.executed + {run})
  }

  ghost predicate OutcomeSends(c: Command, s: State, run: nat, op: Op, finished: int, e: Evidence, t: State) {
    && In(s, run) && s.runs[run].Executing? && Fresh(s, op, Some(run))
    && var p := s.runs[run];
       && p.at <= finished <= s.clock
       && var r := OutcomeRecord(c, p.span, finished, e);
          && ValidRecord(r, c.emptyDigest)
          && t == Move(Send(s, op, r), run, OutcomeSent(r))
  }

  ghost predicate OutcomeConfirms(s: State, run: nat, t: State) {
    && In(s, run) && s.runs[run].OutcomeSent?
    && OutcomeKind in s.store && s.store[OutcomeKind].record == s.runs[run].outcome
    && t == Move(s, run, Uploading(s.runs[run].outcome))
  }

  ghost predicate ResultSends(c: Command, s: State, run: nat, op: Op, stdout: Upload, stderr: Upload, t: State) {
    && In(s, run) && s.runs[run].Uploading? && Fresh(s, op, Some(run)) && s.runs[run].outcome.Outcome?
    && var r := ResultRecord(s.runs[run].outcome, stdout, stderr, s.clock);
       && ValidRecord(r, c.emptyDigest)
       && t == Move(Send(s, op, r), run, ResultSent)
  }

  ghost predicate Next(c: Command, s: State, e: Event, t: State) {
    match e
    case SendRequest(op) => RequestSends(c, s, op, t)
    case ConfirmRequest => RequestConfirms(s, t)
    case SendCommand => CommandSends(s, t)
    case SendAcknowledgement(op) => AcknowledgementSends(c, s, op, t)
    case Apply(op, at) => Applies(s, op, at, t)
    case Tick(to) => Ticks(s, to, t)
    case Invoke(run) => Invokes(c, s, run, t)
    case Claim(run, op) => Claims(c, s, run, op, t)
    case Win(run) => Wins(s, run, t)
    case SendOutcome(run, op, finished, evidence) => OutcomeSends(c, s, run, op, finished, evidence, t)
    case ConfirmOutcome(run) => OutcomeConfirms(s, run, t)
    case SendResult(run, op, stdout, stderr) => ResultSends(c, s, run, op, stdout, stderr, t)
    case Stop(run) => In(s, run) && t == Move(s, run, Over)
  }

  ghost function Initial(clock: int): State {
    State(map[], map[], map[], clock, Idle, map[], {})
  }

  ghost predicate IsRun(c: Command, states: seq<State>, events: seq<Event>) {
    && |states| == |events| + 1 && states[0] == Initial(states[0].clock)
    && MIN_RETENTION_DAYS <= c.days <= MAX_RETENTION_DAYS
    && forall n | 0 <= n < |events| :: Next(c, states[n], events[n], states[n + 1])
  }

  // ---------------------------------------------------------------- invariant

  /** Objects are pending writes that storage applied. */
  ghost predicate StoreInv(s: State) {
    && s.writer.Keys == s.store.Keys
    && forall k | k in s.store :: s.writer[k] in s.network && s.network[s.writer[k]] == s.store[k].record
                                  && s.store[k].record.Kind() == k && Usable(s.store[k])
  }

  /** The retention that the stored request fixes. */
  ghost predicate HasSpan(s: State, span: Span) {
    RequestKind in s.store && SpanOf(s.store[RequestKind]) == Some(span)
  }

  /** The one invocation whose claim is stored started no later than `finished`. */
  ghost predicate StartedBy(s: State, run: Option<nat>, finished: Stamp) {
    && StartedKind in s.store && StartedKind in s.writer && s.writer[StartedKind].run == run
       && s.store[StartedKind].record.Started?
    && s.store[StartedKind].record.at.nanos <= finished.nanos
  }

  /** Every write, pending or applied, names the command and the stored retention; ends come from the winner alone. */
  ghost predicate WriteInv(c: Command, s: State, op: Op) {
    op in s.network ==>
      var r := s.network[op];
      && r.binding == c.binding && (!r.Request? ==> r.ssm == c.ssm)
      && (r.Request? ==> r.retentionDays == c.days)
      && (r.Started? ==> HasSpan(s, r.span) && op.run.Some?)
      && (r.Ended() ==> HasSpan(s, r.span) && op.run.Some? && StartedBy(s, op.run, r.finished))
  }

  ghost predicate WritesInv(c: Command, s: State) {
    forall op | op in s.network :: WriteInv(c, s, op)
  }

  /** Any two ends tell the same story, and there is at most one of each kind. */
  ghost predicate OneEnd(s: State) {
    forall x, y | x in s.network && y in s.network && s.network[x].Ended() && s.network[y].Ended() ::
      && s.network[x].finished == s.network[y].finished && s.network[x].evidence == s.network[y].evidence
      && (s.network[x].Kind() == s.network[y].Kind() ==> x == y)
  }

  /** No end was written by this invocation. */
  ghost predicate NoEnds(s: State, run: nat) {
    forall op | op in s.network && op.run == Some(run) :: !s.network[op].Ended()
  }

  ghost predicate NoResult(s: State, run: nat) {
    forall op | op in s.network && op.run == Some(run) :: !s.network[op].Result?
  }

  ghost predicate OutcomeWritten(s: State, run: nat, r: Record) {
    exists op :: op in s.network && op.run == Some(run) && s.network[op] == r && r.Outcome?
  }

  /** What an invocation knows at each point. */
  ghost predicate RunInv(c: Command, s: State, run: nat, p: Phase) {
    match p
    case Waiting(span) => HasSpan(s, span) && NoEnds(s, run)
    case ClaimSent(span, op, at) =>
      && HasSpan(s, span) && NoEnds(s, run) && at <= s.clock
      && op in s.network && op.run == Some(run) && s.network[op] == StartedRecord(c, span, at)
    case Executing(span, op, at) =>
      && HasSpan(s, span) && NoEnds(s, run) && at <= s.clock
      && StartedKind in s.writer && s.writer[StartedKind] == op && op.run == Some(run)
      && StartedKind in s.store && s.store[StartedKind].record == StartedRecord(c, span, at)
    case OutcomeSent(outcome) => OutcomeWritten(s, run, outcome) && NoResult(s, run)
    case Uploading(outcome) => OutcomeWritten(s, run, outcome) && NoResult(s, run)
    case ResultSent => true
    case Over => true
  }

  ghost predicate RunsInv(c: Command, s: State) {
    && (forall run | run in s.runs :: RunInv(c, s, run, s.runs[run]))
    && (forall op | op in s.network && op.run.Some? :: op.run.value in s.runs)
  }

  /** Only the writer of the started record has executed. */
  ghost predicate ExecutedInv(s: State) {
    forall run | run in s.executed :: StartedKind in s.writer && s.writer[StartedKind].run == Some(run)
  }

  ghost predicate Inv(c: Command, s: State) {
    StoreInv(s) && WritesInv(c, s) && OneEnd(s) && RunsInv(c, s) && ExecutedInv(s)
  }

  // ---------------------------------------------------------------- every step keeps it

  /** Objects, writers and pending writes only grow, and the clock does not go back. */
  ghost predicate Grows(s: State, t: State) {
    && s.clock <= t.clock
    && (forall k | k in s.store :: k in t.store && t.store[k] == s.store[k])
    && (forall k | k in s.writer :: k in t.writer && t.writer[k] == s.writer[k])
    && (forall op | op in s.network :: op in t.network && t.network[op] == s.network[op])
  }

  /** Growth by writes of other invocations keeps what an invocation knows. */
  lemma RunStays(c: Command, s: State, t: State, run: nat, p: Phase)
    requires RunInv(c, s, run, p) && Grows(s, t)
    requires forall op | op in t.network && op.run == Some(run) :: op in s.network
    ensures RunInv(c, t, run, p)
  {
    if p.OutcomeSent? || p.Uploading? {
      var op :| op in s.network && op.run == Some(run) && s.network[op] == p.outcome && p.outcome.Outcome?;
      assert op in t.network && t.network[op] == p.outcome;
    }
  }

  lemma WriteStays(c: Command, s: State, t: State, op: Op)
    requires StoreInv(s) && WriteInv(c, s, op) && Grows(s, t) && op in s.network
    ensures WriteInv(c, t, op)
  {
  }

  lemma MoveKeeps(c: Command, s: State, run: nat, p: Phase)
    requires Inv(c, s) && RunInv(c, s, run, p)
    ensures Inv(c, Move(s, run, p))
  {
    hide RunInv, WriteInv, OneEnd;
    var t := Move(s, run, p);
    forall r | r in t.runs
      ensures RunInv(c, t, r, t.runs[r])
    {
      RunStays(c, s, t, r, t.runs[r]);
    }
    forall op | op in t.network
      ensures WriteInv(c, t, op)
    {
      WriteStays(c, s, t, op);
    }
    SameEnds(s, t);
  }

  lemma SameEnds(s: State, t: State)
    requires OneEnd(s) && t.network == s.network
    ensures OneEnd(t)
  {
  }

  /** A write that is not an end adds no end. */
  lemma OtherWrite(s: State, op: Op, r: Record, t: State)
    requires OneEnd(s) && op !in s.network && !r.Ended() && t.network == s.network[op := r]
    ensures OneEnd(t)
  {
  }

  /** The submitter's writes concern no invocation. */
  lemma SubmitterKeeps(c: Command, s: State, op: Op, r: Record, t: State)
    requires Inv(c, s) && Fresh(s, op, None) && t == Send(s, op, r).(submitter := t.submitter)
    requires r == Request(c.binding, c.days) || r == Acknowledgement(c.binding, c.ssm)
    ensures Inv(c, t)
  {
    hide RunInv, WriteInv, OneEnd;
    OtherWrite(s, op, r, t);
    SubmitterWrite(c, s, op, r, t);
    OthersStay(c, s, t);
  }

  lemma SubmitterWrite(c: Command, s: State, op: Op, r: Record, t: State)
    requires t.network == s.network[op := r]
    requires r == Request(c.binding, c.days) || r == Acknowledgement(c.binding, c.ssm)
    ensures WriteInv(c, t, op)
  {
  }

  /** Nothing an invocation knows is lost when only the submitter, storage or the clock moved. */
  lemma OthersStay(c: Command, s: State, t: State)
    requires StoreInv(s) && WritesInv(c, s) && RunsInv(c, s) && Grows(s, t) && t.runs == s.runs
    requires forall op | op in t.network && op.run.Some? :: op in s.network
    requires forall op | op in t.network && op !in s.network :: WriteInv(c, t, op)
    ensures RunsInv(c, t) && WritesInv(c, t)
  {
    hide RunInv, WriteInv, StoreInv;
    forall run | run in t.runs
      ensures RunInv(c, t, run, t.runs[run])
    {
      RunStays(c, s, t, run, t.runs[run]);
    }
    forall op | op in t.network
      ensures WriteInv(c, t, op)
    {
      if op in s.network {
        WriteStays(c, s, t, op);
      }
    }
  }

  lemma QuietKeeps(c: Command, s: State, t: State)
    requires Inv(c, s) && s.clock <= t.clock && t == s.(clock := t.clock, submitter := t.submitter)
    ensures Inv(c, t)
  {
    hide RunInv, WriteInv, OneEnd;
    OthersStay(c, s, t);
    SameEnds(s, t);
  }

  lemma ApplyKeeps(c: Command, s: State, op: Op, at: int, t: State)
    requires Inv(c, s) && Applies(s, op, at, t)
    ensures Inv(c, t)
  {
    hide RunInv, WriteInv, OneEnd, StoreInv;
    ApplyStore(s, op, at, t);
    OthersStay(c, s, t);
    SameEnds(s, t);
  }

  lemma ApplyStore(s: State, op: Op, at: int, t: State)
    requires StoreInv(s) && Applies(s, op, at, t)
    ensures StoreInv(t) && Grows(s, t)
  {
    hide Usable, SpanOf;
    var k := s.network[op].Kind();
    assert t.store.Keys == s.store.Keys + {k} && t.writer.Keys == s.writer.Keys + {k};
  }

  /** An invocation that sends a record and moves on at once; the others keep what they know. */
  lemma SendMoveKeeps(c: Command, s: State, run: nat, op: Op, r: Record, p: Phase, t: State)
    requires Inv(c, s) && In(s, run) && Fresh(s, op, Some(run)) && t == Move(Send(s, op, r), run, p)
    requires WriteInv(c, t, op) && RunInv(c, t, run, p) && OneEnd(t)
    ensures Inv(c, t)
  {
    hide RunInv, WriteInv, OneEnd;
    forall q | q in t.runs
      ensures RunInv(c, t, q, t.runs[q])
    {
      if q != run {
        RunStays(c, s, t, q, t.runs[q]);
      }
    }
    forall o | o in t.network
      ensures WriteInv(c, t, o)
    {
      if o in s.network {
        WriteStays(c, s, t, o);
      }
    }
  }

  lemma InvokeKeeps(c: Command, s: State, run: nat, t: State)
    requires Inv(c, s) && Invokes(c, s, run, t)
    ensures Inv(c, t)
  {
    hide WriteInv, OneEnd, StoreInv;
    MoveKeeps(c, s, run, t.runs[run]);
  }

  lemma RunKnows(c: Command, s: State, run: nat)
    requires Inv(c, s) && In(s, run)
    ensures RunInv(c, s, run, s.runs[run])
  {
    hide RunInv, WriteInv, OneEnd;
  }

  lemma ClaimKeeps(c: Command, s: State, run: nat, op: Op, t: State)
    requires Inv(c, s) && Claims(c, s, run, op, t)
    ensures Inv(c, t)
  {
    hide Inv, OneEnd;
    RunKnows(c, s, run);
    var span := s.runs[run].span;
    var r := StartedRecord(c, span, s.clock);
    Ends(c, s);
    OtherWrite(s, op, r, t);
    SendMoveKeeps(c, s, run, op, r, t.runs[run], t);
  }

  lemma Ends(c: Command, s: State)
    requires Inv(c, s)
    ensures OneEnd(s)
  {
    hide StoreInv, WritesInv, RunsInv, ExecutedInv, OneEnd;
  }

  lemma WinKeeps(c: Command, s: State, run: nat, t: State)
    requires Inv(c, s) && Wins(s, run, t)
    ensures Inv(c, t)
  {
    RunKnows(c, s, run);
    StartedStored(c, s, s.runs[run].op);
    MoveKeeps(c, s, run, t.runs[run]);
    hide RunInv, WriteInv, OneEnd, StoreInv;
    ExecutedOne(s, run, s.runs[run].op, t);
    SameButExecuted(c, Move(s, run, t.runs[run]), t);
  }

  lemma StartedStored(c: Command, s: State, op: Op)
    requires Inv(c, s) && StartedKind in s.writer && s.writer[StartedKind] == op
    ensures op in s.network && StartedKind in s.store && s.store[StartedKind].record == s.network[op]
  {
    hide WritesInv, RunsInv, OneEnd, Usable;
  }

  lemma ExecutedOne(s: State, run: nat, op: Op, t: State)
    requires ExecutedInv(s) && StartedKind in s.writer && s.writer[StartedKind] == op && op.run == Some(run)
    requires t.writer == s.writer && t.executed == s.executed + {run}
    ensures ExecutedInv(t)
  {
  }

  lemma SameButExecuted(c: Command, s: State, t: State)
    requires Inv(c, s) && ExecutedInv(t) && t == s.(executed := t.executed)
    ensures Inv(c, t)
  {
    hide RunInv, WriteInv, OneEnd;
    OthersStay(c, s, t);
    SameEnds(s, t);
  }

  /** Only the winner writes ends, so an invocation that holds the claim and has written none is the first to. */
  lemma NoEndYet(c: Command, s: State, run: nat)
    requires Inv(c, s) && NoEnds(s, run) && StartedKind in s.writer && s.writer[StartedKind].run == Some(run)
    ensures forall op | op in s.network :: !s.network[op].Ended()
  {
    hide RunsInv, OneEnd, StoreInv;
    forall op | op in s.network
      ensures !s.network[op].Ended()
    {
      assert WriteInv(c, s, op);
    }
  }

  lemma OutcomeKeeps(c: Command, s: State, run: nat, op: Op, finished: int, e: Evidence, t: State)
    requires Inv(c, s) && OutcomeSends(c, s, run, op, finished, e, t)
    ensures Inv(c, t)
  {
    hide Inv, ValidRecord, OneEnd;
    RunKnows(c, s, run);
    NoEndYet(c, s, run);
    var r := OutcomeRecord(c, s.runs[run].span, finished, e);
    FirstEnd(s, op, r, t);
    FloorMonotone(s.runs[run].at, finished);
    assert t.network[op] == r;
    SendMoveKeeps(c, s, run, op, r, t.runs[run], t);
  }

  /** Rounding down keeps the order of times, and the order against whole seconds in both directions. */
  lemma FloorMonotone(a: int, b: int)
    requires a <= b
    ensures Floor(a) <= Floor(b)
  {
  }

  lemma FirstEnd(s: State, op: Op, r: Record, t: State)
    requires op !in s.network && t.network == s.network[op := r] && forall o | o in s.network :: !s.network[o].Ended()
    ensures OneEnd(t)
  {
  }

  lemma ConfirmKeeps(c: Command, s: State, run: nat, t: State)
    requires Inv(c, s) && OutcomeConfirms(s, run, t)
    ensures Inv(c, t)
  {
    hide Inv;
    RunKnows(c, s, run);
    MoveKeeps(c, s, run, t.runs[run]);
  }

  lemma StopKeeps(c: Command, s: State, run: nat)
    requires Inv(c, s)
    ensures Inv(c, Move(s, run, Over))
  {
    hide Inv;
    MoveKeeps(c, s, run, Over);
  }

  lemma ResultKeeps(c: Command, s: State, run: nat, op: Op, stdout: Upload, stderr: Upload, t: State)
    requires Inv(c, s) && ResultSends(c, s, run, op, stdout, stderr, t)
    ensures Inv(c, t)
  {
    hide Inv, ValidRecord, OneEnd;
    RunKnows(c, s, run);
    var outcome := s.runs[run].outcome;
    var r := ResultRecord(outcome, stdout, stderr, s.clock);
    var first :| first in s.network && first.run == Some(run) && s.network[first] == outcome;
    OutcomeFacts(c, s, run, first);
    Ends(c, s);
    SecondEnd(c, s, run, first, op, r, t);
    SendMoveKeeps(c, s, run, op, r, t.runs[run], t);
  }

  lemma OutcomeFacts(c: Command, s: State, run: nat, op: Op)
    requires Inv(c, s) && op in s.network && op.run == Some(run) && s.network[op].Outcome?
    ensures var r := s.network[op];
            r.binding == c.binding && r.ssm == c.ssm && HasSpan(s, r.span) && StartedBy(s, Some(run), r.finished)
    ensures forall o | o in s.network && s.network[o].Ended() :: o.run == Some(run)
  {
    hide RunsInv, OneEnd, StoreInv, StartedBy, HasSpan;
    assert WriteInv(c, s, op);
    EndsOfOne(c, s, op);
  }

  lemma EndsOfOne(c: Command, s: State, op: Op)
    requires WritesInv(c, s) && op in s.network && s.network[op].Ended()
    ensures forall o | o in s.network && s.network[o].Ended() :: o.run == op.run
  {
    assert WriteInv(c, s, op);
    forall o | o in s.network && s.network[o].Ended()
      ensures o.run == op.run
    {
      assert WriteInv(c, s, o);
    }
  }

  lemma SecondEnd(c: Command, s: State, run: nat, first: Op, op: Op, r: Record, t: State)
    requires OneEnd(s) && NoResult(s, run) && op !in s.network && t.network == s.network[op := r]
    requires first in s.network && s.network[first].Outcome?
    requires forall o | o in s.network && s.network[o].Ended() :: o.run == Some(run)
    requires r.Result? && r.finished == s.network[first].finished && r.evidence == s.network[first].evidence
    ensures OneEnd(t)
  {
  }

  lemma StepKeeps(c: Command, s: State, e: Event, t: State)
    requires Inv(c, s) && Next(c, s, e, t)
    ensures Inv(c, t)
  {
    hide Inv, RequestSends, RequestConfirms, CommandSends, AcknowledgementSends, Applies, Ticks, Invokes, Claims, Wins,
         OutcomeSends, OutcomeConfirms, ResultSends;
    match e
    case SendRequest(op) => SubmitterSteps(c, s, e, t);
    case ConfirmRequest => SubmitterSteps(c, s, e, t);
    case SendCommand => SubmitterSteps(c, s, e, t);
    case SendAcknowledgement(op) => SubmitterSteps(c, s, e, t);
    case Apply(op, at) => ApplyKeeps(c, s, op, at, t);
    case Tick(to) => SubmitterSteps(c, s, e, t);
    case Invoke(run) => InvokeKeeps(c, s, run, t);
    case Claim(run, op) => ClaimKeeps(c, s, run, op, t);
    case Win(run) => WinKeeps(c, s, run, t);
    case SendOutcome(run, op, finished, evidence) => OutcomeKeeps(c, s, run, op, finished, evidence, t);
    case ConfirmOutcome(run) => ConfirmKeeps(c, s, run, t);
    case SendResult(run, op, stdout, stderr) => ResultKeeps(c, s, run, op, stdout, stderr, t);
    case Stop(run) => StopKeeps(c, s, run);
  }

  lemma SubmitterSteps(c: Command, s: State, e: Event, t: State)
    requires Inv(c, s) && Next(c, s, e, t)
    requires e.SendRequest? || e.ConfirmRequest? || e.SendCommand? || e.SendAcknowledgement? || e.Tick?
    ensures Inv(c, t)
  {
    hide Inv;
    match e
    case SendRequest(op) => SubmitterKeeps(c, s, op, Request(c.binding, c.days), t);
    case SendAcknowledgement(op) => SubmitterKeeps(c, s, op, Acknowledgement(c.binding, c.ssm), t);
    case _ => QuietKeeps(c, s, t);
  }

  lemma {:induction false} RunKeeps(c: Command, states: seq<State>, events: seq<Event>, n: nat)
    requires IsRun(c, states, events) && n < |states|
    ensures Inv(c, states[n])
  {
    hide Next;
    if n == 0 {
      assert Inv(c, Initial(states[0].clock));
    } else {
      hide Inv;
      RunKeeps(c, states, events, n - 1);
      StepKeeps(c, states[n - 1], events[n - 1], states[n]);
    }
  }

  // ---------------------------------------------------------------- what every run promises

  /** The objects in the store. */
  ghost function Stored(s: State): set<Observed> {
    set k | k in s.store :: s.store[k]
  }

  /** Every step lets the store only grow. */
  lemma StepGrows(c: Command, s: State, e: Event, t: State)
    requires Next(c, s, e, t)
    ensures forall k | k in s.store :: k in t.store && t.store[k] == s.store[k]
  {
    hide ValidRecord, Usable;
  }

  lemma {:induction false} RunGrows(c: Command, states: seq<State>, events: seq<Event>, n: nat, m: nat)
    requires IsRun(c, states, events) && n <= m < |states|
    ensures forall k | k in states[n].store :: k in states[m].store && states[m].store[k] == states[n].store[k]
    decreases m - n
  {
    hide Next;
    if n < m {
      RunGrows(c, states, events, n, m - 1);
      StepGrows(c, states[m - 1], events[m - 1], states[m]);
    }
  }

  lemma StoredAgree(c: Command, s: State, j: Kind, k: Kind)
    requires Inv(c, s) && j in s.store && k in s.store
    ensures Agree(s.store[j], s.store[k]) && Usable(s.store[j])
    ensures s.store[j].record.binding == c.binding
            && (SSMOf(s.store[j].record).Some? ==> SSMOf(s.store[j].record) == Some(c.ssm))
    ensures s.store[j].record.Kind() == j
  {
    hide RunInv, ExecutedInv, Usable;
    assert WriteInv(c, s, s.writer[j]) && WriteInv(c, s, s.writer[k]);
    SpansAgree(c, s, j);
    SpansAgree(c, s, k);
  }

  lemma SpansAgree(c: Command, s: State, k: Kind)
    requires StoreInv(s) && WritesInv(c, s) && k in s.store
    ensures SpanOf(s.store[k]).Some? ==> HasSpan(s, SpanOf(s.store[k]).value)
  {
    hide Usable;
    assert WriteInv(c, s, s.writer[k]);
  }

  /** At every reachable point any two stored records agree: no read of any of them, in any order, shows a
      contradiction. */
  lemma AlwaysConsonant(c: Command, states: seq<State>, events: seq<Event>, n: nat)
    requires IsRun(c, states, events) && n < |states|
    ensures Genuine(Stored(states[n]), c.binding, c.ssm)
    ensures forall k | k in states[n].store :: states[n].store[k].record.Kind() == k
  {
    hide Inv, Next, Agree, Usable;
    RunKeeps(c, states, events, n);
    var s := states[n];
    forall j, k | j in s.store && k in s.store
      ensures Agree(s.store[j], s.store[k]) && Usable(s.store[j])
      ensures s.store[j].record.binding == c.binding
              && (SSMOf(s.store[j].record).Some? ==> SSMOf(s.store[j].record) == Some(c.ssm))
      ensures s.store[j].record.Kind() == j
    {
      StoredAgree(c, s, j, k);
    }
  }

  /** One reading of one key at some moment of a run: what is there then, absence only if nothing is there, or trouble.
      */
  ghost predicate ReadAt(r: Reading, kind: Kind, s: State) {
    match r
    case Found(o) => kind in s.store && s.store[kind] == o
    case Missing => kind !in s.store
    case Trouble(_) => true
    case _ => false
  }

  /** Every reading happened at some moment of the run, each at its own. */
  ghost predicate ReadDuring(r: Reading, kind: Kind, states: seq<State>) {
    exists n :: 0 <= n < |states| && ReadAt(r, kind, states[n])
  }

  lemma DuringIsHonest(c: Command, states: seq<State>, events: seq<Event>, r: Reading, kind: Kind)
    requires IsRun(c, states, events) && ReadDuring(r, kind, states)
    ensures Honest(r, kind, Stored(states[|states| - 1]))
  {
    hide Next, IsRun;
    var n :| 0 <= n < |states| && ReadAt(r, kind, states[n]);
    if r.Found? {
      RunGrows(c, states, events, n, |states| - 1);
      AlwaysConsonant(c, states, events, |states| - 1);
    }
  }

  ghost predicate AnswersDuring(a: Answers, states: seq<State>) {
    && ReadDuring(a.early, ResultKind, states) && ReadDuring(a.outcome, OutcomeKind, states)
       && ReadDuring(a.started, StartedKind, states)
    && ReadDuring(a.acknowledgement, AcknowledgementKind, states) && ReadDuring(a.request, RequestKind, states)
    && ReadDuring(a.late, ResultKind, states)
  }

  lemma HonestSlot(slots: seq<Reading>, r: Reading, kind: Kind, xs: set<Observed>)
    requires Honest(r, kind, xs) && !Damaged(slots) && Elems(FoundIn(slots)) <= xs
    ensures !Damaged(slots + [Checked(r, kind)]) && Elems(FoundIn(slots + [Checked(r, kind)])) <= xs
    ensures !DamagedOne(Checked(r, kind))
  {
    FoundStep(slots, Checked(r, kind));
    hide Damaged;
  }

  /** Recovery never finds anything corrupt, at any point of any run of the submitter and any number of runner
      invocations, whatever moments its reads fall into and whichever of them fail for a while. */
  lemma RecoverNeverCorrupt(c: Command, states: seq<State>, events: seq<Event>, a: Answers)
    requires IsRun(c, states, events) && AnswersDuring(a, states)
    ensures !Contradictory(a)
  {
    hide Next, IsRun, Consonant, Checked, Damaged, FoundIn, Honest;
    var s := states[|states| - 1];
    var xs := Stored(s);
    AlwaysConsonant(c, states, events, |states| - 1);
    DuringIsHonest(c, states, events, a.early, ResultKind);
    DuringIsHonest(c, states, events, a.outcome, OutcomeKind);
    DuringIsHonest(c, states, events, a.started, StartedKind);
    DuringIsHonest(c, states, events, a.acknowledgement, AcknowledgementKind);
    DuringIsHonest(c, states, events, a.request, RequestKind);
    DuringIsHonest(c, states, events, a.late, ResultKind);
    NoSlots(None);
    NothingFound();
    HonestSlot([], a.early, ResultKind, xs);
    HonestSlot([], a.outcome, OutcomeKind, xs);
    var s1 := [] + [Checked(a.outcome, OutcomeKind)];
    HonestSlot(s1, a.started, StartedKind, xs);
    var s2 := s1 + [Checked(a.started, StartedKind)];
    HonestSlot(s2, a.acknowledgement, AcknowledgementKind, xs);
    var s3 := s2 + [Checked(a.acknowledgement, AcknowledgementKind)];
    HonestSlot(s3, a.request, RequestKind, xs);
    var s4 := s3 + [Checked(a.request, RequestKind)];
    assert s4 == MiddleSlots(a);
    HonestSlot(s4, a.late, ResultKind, xs);
    ConsonantSubset(Elems(FoundIn(s4 + [Checked(a.late, ResultKind)])), xs);
  }

  ghost predicate PollDuring(p: Poll, states: seq<State>) {
    ReadDuring(p.started, StartedKind, states) && ReadDuring(p.outcome, OutcomeKind, states)
    && ReadDuring(p.result, ResultKind, states)
  }

  ghost predicate RoundsDuring(ts: seq<Round>, states: seq<State>) {
    forall t | t in ts :: PollDuring(t.first, states) && PollDuring(t.second, states) && !t.answer.Foreign?
  }

  /** Neither does an observation that follows the acknowledged invocation. */
  lemma ObserveNeverCorrupt(c: Command, states: seq<State>, events: seq<Event>, rounds: seq<Round>)
    requires IsRun(c, states, events) && RoundsDuring(rounds, states)
    ensures Genuine(Stored(states[|states| - 1]), c.binding, c.ssm)
            && HonestRounds(rounds, Stored(states[|states| - 1]))
  {
    hide Next, Consonant, Honest, Genuine, ReadDuring;
    AlwaysConsonant(c, states, events, |states| - 1);
    forall t | t in rounds
      ensures HonestRound(t, Stored(states[|states| - 1]))
    {
      HonestPollDuring(c, states, events, t.first);
      HonestPollDuring(c, states, events, t.second);
    }
  }

  /** A recovery beside a run: whatever moments its reads fall into, it never concludes that anything is corrupt, as
      long as the service names the right invocation. */
  method RecoverBeside(ghost c: Command, ghost states: seq<State>, ghost events: seq<Event>, a: Answers, ask: bool,
                       invocation: Invocation, now: int, patience: nat)
    returns (v: Verdict)
    requires IsRun(c, states, events) && AnswersDuring(a, states) && !invocation.ForeignIdentity?
    ensures !Condemned(v)
    ensures var early := Checked(a.early, ResultKind);
            early.Found? && patience > 0 ==> v == VerdictOf(early.observed.record, now)
  {
    RecoverNeverCorrupt(c, states, events, a);
    v := Recover.Recover(a, ask, invocation, now, patience);
  }

  /** An observation beside a run: it never concludes that anything is corrupt, and the first final record that it finds
      ends it with that record. */
  method ObserveBeside(ghost c: Command, ghost states: seq<State>, ghost events: seq<Event>, o: Observer,
                       rounds: seq<Round>)
    returns (v: Conclusion, used: nat)
    requires IsRun(c, states, events) && RoundsDuring(rounds, states)
    requires o.started.None? && o.outcome.None? && o.binding == c.binding && o.ssm == c.ssm
    modifies o
    ensures used <= |rounds| && !v.ForeignInvocation? && (v.Rejected? ==> !Condemning(Some(v.issue)))
    ensures forall k | 0 <= k < used && rounds[k].first.result.Found? ::
              k == used - 1 && v == Finished(rounds[k].first.result.observed.record)
  {
    ObserveNeverCorrupt(c, states, events, rounds);
    v, used := Observe.Observe(o, rounds, Stored(states[|states| - 1]));
  }

  lemma HonestPollDuring(c: Command, states: seq<State>, events: seq<Event>, p: Poll)
    requires IsRun(c, states, events) && PollDuring(p, states)
    ensures HonestPoll(p, Stored(states[|states| - 1]))
  {
    hide Next, IsRun, Honest, ReadDuring;
    DuringIsHonest(c, states, events, p.started, StartedKind);
    DuringIsHonest(c, states, events, p.outcome, OutcomeKind);
    DuringIsHonest(c, states, events, p.result, ResultKind);
  }

  /** Across all invocations the command executes at most once, and at most one outcome and one result are ever sent,
      telling the same story: also when a started record is stored but its acknowledgement was lost. */
  lemma ExecutesOnce(c: Command, states: seq<State>, events: seq<Event>, n: nat)
    requires IsRun(c, states, events) && n < |states|
    ensures |states[n].executed| <= 1
    ensures OneEnd(states[n])
    ensures forall run | run in states[n].executed ::
              StartedKind in states[n].writer && states[n].writer[StartedKind].run == Some(run)
  {
    hide Next, IsRun;
    RunKeeps(c, states, events, n);
    hide WritesInv, RunsInv, StoreInv, OneEnd;
    var s := states[n];
    if run :| run in s.executed {
      assert forall q | q in s.executed :: q == run;
      assert s.executed == {run};
    }
  }

  /** Whoever has executed is past its claim for good. */
  ghost predicate PastClaim(s: State) {
    forall run | run in s.executed :: In(s, run) && !s.runs[run].Waiting? && !s.runs[run].ClaimSent?
  }

  lemma StepPastClaim(c: Command, s: State, e: Event, t: State)
    requires Next(c, s, e, t) && PastClaim(s)
    ensures PastClaim(t) && s.executed <= t.executed && (e.Win? ==> e.run in t.executed && e.run !in s.executed)
  {
    hide ValidRecord, Usable, SpanOf;
  }

  lemma {:induction false} RunPastClaim(c: Command, states: seq<State>, events: seq<Event>, n: nat, m: nat)
    requires IsRun(c, states, events) && n <= m < |states|
    ensures PastClaim(states[m]) && states[n].executed <= states[m].executed
  {
    hide Next;
    if m > 0 {
      if n < m {
        RunPastClaim(c, states, events, n, m - 1);
      } else {
        RunPastClaim(c, states, events, n - 1, m - 1);
      }
      StepPastClaim(c, states[m - 1], events[m - 1], states[m]);
    }
  }

  /** In every run there is at most one event that starts the execution, whoever it belongs to. */
  lemma StartedOnce(c: Command, states: seq<State>, events: seq<Event>, n: nat, m: nat)
    requires IsRun(c, states, events) && n < |events| && m < |events| && events[n].Win? && events[m].Win?
    ensures n == m
  {
    hide Next, PastClaim;
    if n > m {
      StartedOnce(c, states, events, m, n);
    } else if n < m {
      RunPastClaim(c, states, events, 0, n);
      StepPastClaim(c, states[n], events[n], states[n + 1]);
      RunPastClaim(c, states, events, n + 1, m);
      StepPastClaim(c, states[m], events[m], states[m + 1]);
      ExecutesOnce(c, states, events, m + 1);
      assert {events[n].run, events[m].run} <= states[m + 1].executed;
      SubsetSize({events[n].run, events[m].run}, states[m + 1].executed);
    }
  }

  /** A claim inside the retention is always encodable: rounding to whole seconds keeps it between submission and
      deadline, and the deadline lies a whole number of days within bounds after submission. */
  lemma ClaimValid(c: Command, states: seq<State>, events: seq<Event>, n: nat, run: nat)
    requires IsRun(c, states, events) && n < |states| && In(states[n], run) && states[n].runs[run].Waiting?
    requires var span := states[n].runs[run].span; span.submitted.nanos <= states[n].clock < span.expires.nanos
    ensures ValidRecord(StartedRecord(c, states[n].runs[run].span, states[n].clock), c.emptyDigest)
  {
    hide Next, Inv;
    RunKeeps(c, states, events, n);
    RunKnows(c, states[n], run);
    RequestFacts(c, states[n]);
    SpanArithmetic(states[n].store[RequestKind], states[n].clock);
  }

  lemma RequestFacts(c: Command, s: State)
    requires Inv(c, s) && RequestKind in s.store
    ensures s.store[RequestKind].record == Request(c.binding, c.days) && Usable(s.store[RequestKind])
  {
    hide RunsInv, OneEnd, Usable;
    assert WriteInv(c, s, s.writer[RequestKind]);
  }

  lemma SpanArithmetic(o: Observed, now: int)
    requires o.record.Request? && Usable(o) && MIN_RETENTION_DAYS <= o.record.retentionDays <= MAX_RETENTION_DAYS
    requires SpanOf(o).value.submitted.nanos <= now < SpanOf(o).value.expires.nanos
    ensures ValidSpan(SpanOf(o).value) && Readable(Timestamp(now))
    ensures SpanOf(o).value.submitted.nanos <= Timestamp(now).nanos < SpanOf(o).value.expires.nanos
  {
    var days := o.record.retentionDays;
    var submitted := Floor(o.modified);
    assert days * DAY % SECOND == 0 by {
      assert days * DAY == (days * 86_400) * SECOND;
    }
    assert Floor(submitted + days * DAY) == submitted + days * DAY;
    assert (days * DAY) % DAY == 0;
    FloorMonotone(submitted, now);
  }
}
