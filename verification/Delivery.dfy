/** The promises about runs of a command are not empty: any command whose work ends with known and captured evidence has
    a run that executes it and publishes that evidence, and recovery then calls it complete. */
module Delivery {
  import opened Basics
  import opened ExecRecords
  import opened Runner
  import R = Recover

  datatype Trace = Trace(states: seq<State>, events: seq<Event>)
  {
    ghost predicate EndsIn(c: Command, s: State) {
      IsRun(c, states, events) && states[|events|] == s
    }
  }

  lemma Then(c: Command, r: Trace, s: State, e: Event, t: State) returns (q: Trace)
    requires r.EndsIn(c, s) && Next(c, s, e, t)
    ensures q.EndsIn(c, t)
  {
    hide Next;
    q := Trace(r.states + [t], r.events + [e]);
    forall n | 0 <= n < |q.events|
      ensures Next(c, q.states[n], q.events[n], q.states[n + 1])
    {
      if n < |r.events| {
        assert q.events[n] == r.events[n];
      }
    }
  }

  const RUN: nat := 0

  /** The time at which everything happens: the first readable whole second. */
  const NOW := SECOND

  ghost predicate Feasible(c: Command, e: Evidence) {
    && MIN_RETENTION_DAYS <= c.days <= MAX_RETENTION_DAYS
    && ValidWorkload(e.workload) && !e.workload.WorkloadUnknown? && e.captured
    && ValidStream(e.stdout, c.emptyDigest) && ValidStream(e.stderr, c.emptyDigest)
  }

  ghost function Life(c: Command): Span {
    Span(Timestamp(NOW), Timestamp(Floor(NOW) + c.days * DAY))
  }

  ghost function Put(s: State, op: Op, r: Record): State {
    s.(network := s.network[op := r], store := s.store[r.Kind() := Observed(r, NOW)],
       writer := s.writer[r.Kind() := op])
  }

  /** A write that is sent in one step and applied in the next. */
  lemma Written(c: Command, r: Trace, s: State, e: Event, op: Op, record: Record, t: State) returns (q: Trace)
    requires r.EndsIn(c, s) && record.Kind() !in s.store && Usable(Observed(record, NOW))
    requires t.network == s.network[op := record] && t.store == s.store && t.writer == s.writer && Next(c, s, e, t)
    ensures q.EndsIn(c, Put(t, op, record))
  {
    hide IsRun;
    assert Next(c, t, Apply(op, NOW), Put(t, op, record)) by {
      assert Put(t, op, record).network == t.network;
    }
    hide Next;
    q := Then(c, r, s, e, t);
    q := Then(c, q, t, Apply(op, NOW), Put(t, op, record));
  }

  const REQUEST_OP := Op(None, 0)

  ghost function RequestOf(c: Command): Record {
    Request(c.binding, c.days)
  }

  ghost function Requested(c: Command): State {
    Put(Initial(NOW).(submitter := RequestSent), REQUEST_OP, RequestOf(c))
  }

  ghost function Invoked(c: Command): State {
    Move(Requested(c).(submitter := Submitted), RUN, Waiting(Life(c)))
  }

  lemma WholeDays(days: int)
    ensures (NOW + days * DAY) % SECOND == 0 && days * DAY % DAY == 0
  {
    assert NOW + days * DAY == SECOND * (1 + days * 86_400);
  }

  lemma Arithmetic(c: Command)
    requires MIN_RETENTION_DAYS <= c.days <= MAX_RETENTION_DAYS
    ensures Life(c).submitted == Timestamp(NOW) == Stamp(NOW, "") && Life(c).expires == Stamp(NOW + c.days * DAY, "")
    ensures Usable(Observed(RequestOf(c), NOW)) && SpanOf(Observed(RequestOf(c), NOW)) == Some(Life(c))
    ensures ValidSpan(Life(c)) && Readable(Timestamp(NOW)) && NOW + 2 * DAY <= Life(c).expires.nanos
  {
    WholeDays(c.days);
  }

  lemma ReachInvoked(c: Command) returns (q: Trace)
    requires MIN_RETENTION_DAYS <= c.days <= MAX_RETENTION_DAYS
    ensures q.EndsIn(c, Invoked(c))
  {
    Arithmetic(c);
    hide Life;
    var start := Initial(NOW);
    q := Trace([start], []);
    assert q.EndsIn(c, start);
    hide IsRun;
    q := Written(c, q, start, SendRequest(REQUEST_OP), REQUEST_OP, RequestOf(c),
                 Send(start, REQUEST_OP, RequestOf(c)).(submitter := RequestSent));
    var s := Requested(c);
    assert Put(Send(start, REQUEST_OP, RequestOf(c)).(submitter := RequestSent), REQUEST_OP, RequestOf(c)) == s;
    q := Then(c, q, s, ConfirmRequest, s.(submitter := Prepared));
    q := Then(c, q, s.(submitter := Prepared), SendCommand, s.(submitter := Submitted));
    q := Then(c, q, s.(submitter := Submitted), Invoke(RUN), Invoked(c));
  }

  const CLAIM_OP := Op(Some(RUN), 1)
  const OUTCOME_OP := Op(Some(RUN), 2)
  const RESULT_OP := Op(Some(RUN), 3)

  ghost function Claimed(c: Command): State {
    Put(Move(Invoked(c), RUN, ClaimSent(Life(c), CLAIM_OP, NOW)), CLAIM_OP, StartedRecord(c, Life(c), NOW))
  }

  ghost function Working(c: Command): State {
    Move(Claimed(c), RUN, Executing(Life(c), CLAIM_OP, NOW)).(executed := {RUN})
  }

  ghost function OutcomeOf(c: Command, e: Evidence): Record {
    OutcomeRecord(c, Life(c), NOW, e)
  }

  ghost function Reported(c: Command, e: Evidence): State {
    Put(Move(Working(c), RUN, OutcomeSent(OutcomeOf(c, e))), OUTCOME_OP, OutcomeOf(c, e))
  }

  ghost function FinalOf(c: Command, e: Evidence): Record {
    ResultRecord(OutcomeOf(c, e), UploadComplete, UploadComplete, NOW)
  }

  ghost function Finished(c: Command, e: Evidence): State {
    Put(Move(Move(Reported(c, e), RUN, Uploading(OutcomeOf(c, e))), RUN, ResultSent), RESULT_OP, FinalOf(c, e))
  }

  lemma ReachWorking(c: Command) returns (q: Trace)
    requires MIN_RETENTION_DAYS <= c.days <= MAX_RETENTION_DAYS
    ensures q.EndsIn(c, Working(c))
  {
    Arithmetic(c);
    hide IsRun, Life;
    q := ReachInvoked(c);
    var s := Invoked(c);
    var r := StartedRecord(c, Life(c), NOW);
    var t := Move(Send(s, CLAIM_OP, r), RUN, ClaimSent(Life(c), CLAIM_OP, NOW));
    assert Claims(c, s, RUN, CLAIM_OP, t);
    q := Written(c, q, s, Claim(RUN, CLAIM_OP), CLAIM_OP, r, t);
    assert Put(t, CLAIM_OP, r) == Claimed(c);
    assert Wins(Claimed(c), RUN, Working(c));
    q := Then(c, q, Claimed(c), Win(RUN), Working(c));
  }

  lemma OutcomeStep(c: Command, e: Evidence)
    requires Feasible(c, e)
    ensures var s, r := Working(c), OutcomeOf(c, e);
            Next(c, s, SendOutcome(RUN, OUTCOME_OP, NOW, e), Move(Send(s, OUTCOME_OP, r), RUN, OutcomeSent(r)))
  {
    Arithmetic(c);
    hide Life, ValidSpan, ValidWorkload, ValidStream;
    var s, r := Working(c), OutcomeOf(c, e);
    assert ValidRecord(r, c.emptyDigest);
    assert OutcomeSends(c, s, RUN, OUTCOME_OP, NOW, e, Move(Send(s, OUTCOME_OP, r), RUN, OutcomeSent(r)));
  }

  ghost function Raised(c: Command, e: Evidence): State {
    Move(Reported(c, e), RUN, Uploading(OutcomeOf(c, e)))
  }

  lemma ResultStep(c: Command, e: Evidence)
    requires Feasible(c, e)
    ensures var s, r := Raised(c, e), FinalOf(c, e);
            && Next(c, Reported(c, e), ConfirmOutcome(RUN), s)
            && Next(c, s, SendResult(RUN, RESULT_OP, UploadComplete, UploadComplete),
                    Move(Send(s, RESULT_OP, r), RUN, ResultSent))
  {
    Arithmetic(c);
    hide Life, ValidSpan, ValidWorkload, ValidStream, Working;
    var s, r := Raised(c, e), FinalOf(c, e);
    assert OutcomeConfirms(Reported(c, e), RUN, s);
    assert ValidRecord(r, c.emptyDigest);
    assert ResultSends(c, s, RUN, RESULT_OP, UploadComplete, UploadComplete,
                       Move(Send(s, RESULT_OP, r), RUN, ResultSent));
  }

  lemma ReachReported(c: Command, e: Evidence) returns (q: Trace)
    requires Feasible(c, e)
    ensures q.EndsIn(c, Reported(c, e))
  {
    hide IsRun, Next, Life, Feasible;
    assert MIN_RETENTION_DAYS <= c.days <= MAX_RETENTION_DAYS by { Days(c, e); }
    q := ReachWorking(c);
    OutcomeStep(c, e);
    var s, r := Working(c), OutcomeOf(c, e);
    var t := Move(Send(s, OUTCOME_OP, r), RUN, OutcomeSent(r));
    q := Written(c, q, s, SendOutcome(RUN, OUTCOME_OP, NOW, e), OUTCOME_OP, r, t);
    assert Put(t, OUTCOME_OP, r) == Reported(c, e);
  }

  lemma Days(c: Command, e: Evidence)
    requires Feasible(c, e)
    ensures MIN_RETENTION_DAYS <= c.days <= MAX_RETENTION_DAYS
  {
  }

  lemma ReachFinished(c: Command, e: Evidence) returns (q: Trace)
    requires Feasible(c, e)
    ensures q.EndsIn(c, Finished(c, e))
  {
    hide IsRun, Next, Life, Feasible;
    q := ReachReported(c, e);
    ResultStep(c, e);
    var s, r := Raised(c, e), FinalOf(c, e);
    q := Then(c, q, Reported(c, e), ConfirmOutcome(RUN), s);
    var t := Move(Send(s, RESULT_OP, r), RUN, ResultSent);
    FinalStep(c, e);
    q := Written(c, q, s, SendResult(RUN, RESULT_OP, UploadComplete, UploadComplete), RESULT_OP, r, t);
    assert Put(t, RESULT_OP, r) == Finished(c, e);
  }

  lemma FinalStep(c: Command, e: Evidence)
    ensures FinalOf(c, e).Result? && ResultKind !in Raised(c, e).store
  {
    hide Life;
  }

  /** Whatever the exit of the work and the content of its streams: some run ends with the command executed once, its
      evidence in the final record, and a verdict of completion for as long as the retention lasts. */
  lemma DeliveryPossible(c: Command, e: Evidence, now: int) returns (q: Trace)
    requires Feasible(c, e)
    ensures IsRun(c, q.states, q.events)
    ensures var s := q.states[|q.events|];
            && s.executed == {RUN} && ResultKind in s.store && s.store[ResultKind].record.Result?
            && s.store[ResultKind].record.evidence == e
            && R.VerdictOf(s.store[ResultKind].record, now)
               == (if now < s.store[ResultKind].record.span.expires.nanos then R.Completed else R.Expired)
  {
    hide IsRun, Life;
    q := ReachFinished(c, e);
    FinalStep(c, e);
  }
}
