/** Following one acknowledged invocation: polls of the durable records beside the service's own status. */
module Observe {
  import opened Basics
  import opened ExecRecords
  import opened Recover

  /** The three reads of one durable poll; a record read once is remembered and not read again. */
  datatype Poll = Poll(started: Reading, outcome: Reading, result: Reading, now: int)

  datatype Issue = CorruptRecord | UnknownVersion | RetentionPassed | StorageTrouble(retryable: bool)

  ghost predicate Condemning(i: Option<Issue>) {
    i.Some? && (i.value.CorruptRecord? || i.value.UnknownVersion?)
  }

  /** A record must be of the kind its key names and carry the submitted identity. */
  ghost function Identified(r: Reading, kind: Kind, binding: Binding, ssm: SSMID): Reading {
    if r.Found? && (r.observed.record.Kind() != kind || r.observed.record.binding != binding
       || SSMOf(r.observed.record) != Some(ssm))
    then Broken else r
  }

  /** Start and end of the same work: one retention, and no end before the start. */
  ghost predicate ValidTimeline(started: Option<Record>, r: Record) {
    started.Some? && started.value.Started? && r.Ended() ==>
      started.value.span == r.span && started.value.at.nanos <= r.finished.nanos
  }

  // ---------------------------------------------------------------- what a poll finds

  /** What is remembered of the records before the final one. */
  datatype Memory = Memory(started: Option<Record>, outcome: Option<Record>)

  datatype Polled = Polled(memory: Memory, final: Option<Record>, issue: Option<Issue>)

  /** The first record that is found is remembered. */
  ghost function Remembered(known: Option<Record>, r: Reading): Option<Record> {
    if known.None? && r.Found? then Some(r.observed.record) else known
  }

  ghost function DamageIn(r: Reading): Option<Issue> {
    match r
    case Broken => Some(CorruptRecord)
    case UnknownSchema => Some(UnknownVersion)
    case _ => None
  }

  ghost function TroubleIn(r: Reading): Option<Issue> {
    match r
    case Trouble(denied) => Some(StorageTrouble(!denied))
    case _ => None
  }

  ghost function OneOf(a: Option<Issue>, b: Option<Issue>): Option<Issue> {
    if a.Some? then a else b
  }

  /** What is wrong with a record that was not known before: the object, or its place in the timeline. */
  ghost function WrongIn(known: Option<Record>, r: Reading, started: Option<Record>, ended: Option<Record>)
    : Option<Issue> {
    if known.Some? then None
    else if r.Found? && ended.Some? && !ValidTimeline(started, ended.value) then Some(CorruptRecord) else DamageIn(r)
  }

  /** The retention that is known of the work is over: the outcome says it, or else the start. */
  ghost predicate Over(m: Memory, now: int) {
    match m.outcome
    case Some(r) => r.Outcome? && r.span.expires.nanos <= now
    case None => m.started.Some? && m.started.value.Started? && m.started.value.span.expires.nanos <= now
  }

  /** A poll, given what its three reads identify. A final record stands if nothing contradicts it; otherwise what is
      wrong comes before what could not be read, the final record before the others,
      and the outcome before the start. */
  ghost function Polls(m: Memory, start: Reading, outcome: Reading, result: Reading, now: int): (p: Polled)
    ensures p.memory == Memory(Remembered(m.started, start), Remembered(m.outcome, outcome))
  {
    var n := Memory(Remembered(m.started, start), Remembered(m.outcome, outcome));
    var wrong := OneOf(WrongIn(m.outcome, outcome, n.started, n.outcome),
                       WrongIn(m.started, start, n.started, m.outcome));
    if result.Found? then
      var r := result.observed.record;
      var clash := !ValidTimeline(n.started, r) || (n.outcome.Some? && !SameOutcome(n.outcome.value, r));
      var issue := if clash then Some(CorruptRecord) else wrong;
      Polled(n, if issue.None? then Some(r) else None, issue)
    else
      var unread := OneOf(if m.outcome.None? then TroubleIn(outcome) else None,
                          if m.started.None? then TroubleIn(start) else None);
      Polled(n, None, OneOf(wrong, OneOf(DamageIn(result), OneOf(TroubleIn(result),
                            OneOf(unread, if Over(n, now) then Some(RetentionPassed) else None)))))
  }

  /** Every reading is absence, trouble, or one of the given records under its own key. */
  ghost predicate Honest(r: Reading, kind: Kind, xs: set<Observed>) {
    r.Missing? || r.Trouble? || (r.Found? && r.observed in xs && r.observed.record.Kind() == kind)
  }

  ghost predicate HonestPoll(p: Poll, xs: set<Observed>) {
    Honest(p.started, StartedKind, xs) && Honest(p.outcome, OutcomeKind, xs) && Honest(p.result, ResultKind, xs)
  }

  /** The given records agree and carry the submitted identity. */
  ghost predicate Genuine(xs: set<Observed>, binding: Binding, ssm: SSMID) {
    Consonant(xs) && forall x | x in xs ::
      x.record.binding == binding && (SSMOf(x.record).Some? ==> SSMOf(x.record) == Some(ssm))
  }

  ghost predicate FromRecords(r: Option<Record>, kind: Kind, xs: set<Observed>) {
    r.Some? ==> r.value.Kind() == kind && exists x :: x in xs && x.record == r.value
  }

  class Observer {
    const binding: Binding
    const ssm: SSMID
    var started: Option<Record>
    var outcome: Option<Record>

    constructor (b: Binding, id: SSMID)
      ensures binding == b && ssm == id && started.None? && outcome.None?
    {
      binding, ssm, started, outcome := b, id, None, None;
    }

    ghost predicate Valid()
      reads this
    {
      && (started.Some? ==> started.value.Started?) && (outcome.Some? ==> outcome.value.Outcome?)
      && (outcome.Some? ==> ValidTimeline(started, outcome.value))
    }

    ghost function Mind(): Memory
      reads this
    {
      Memory(started, outcome)
    }

    /** `read`: a record of another kind or identity is a broken object. */
    method Identify(r: Reading, kind: Kind) returns (x: Reading)
      ensures x == Identified(r, kind, binding, ssm)
    {
      if !r.Found? {
        return r;
      }
      var record := r.observed.record;
      if record.Kind() != kind || record.binding != binding || record.Request? || record.ssm != ssm {
        return Broken;
      }
      return r;
    }

    /** `validTimeline`. */
    method InTime(r: Record) returns (ok: bool)
      requires r.Ended() && (started.Some? ==> started.value.Started?)
      ensures ok <==> ValidTimeline(started, r)
    {
      if started.None? {
        return true;
      }
      return started.value.span == r.span && started.value.at.nanos <= r.finished.nanos;
    }

    /** The first half of a poll: whichever of the started and outcome records is not known yet. */
    method ReadStarts(p: Poll) returns (invalid: Option<Issue>, trouble: Option<Issue>)
      requires Valid()
      modifies this
      ensures var s, o := Identified(p.started, StartedKind, binding, ssm),
              Identified(p.outcome, OutcomeKind, binding, ssm);
              && started == Remembered(old(started), s) && outcome == Remembered(old(outcome), o)
              && invalid == OneOf(WrongIn(old(outcome), o, started, outcome),
                                  WrongIn(old(started), s, started, old(outcome)))
              && trouble == OneOf(if old(outcome).None? then TroubleIn(o) else None,
                                  if old(started).None? then TroubleIn(s) else None)
      ensures (started.Some? ==> started.value.Started?) && (outcome.Some? ==> outcome.value.Outcome?)
    {
      hide ValidTimeline;
      invalid, trouble := None, None;
      if started.None? {
        var s := Identify(p.started, StartedKind);
        match s {
          case Found(o) =>
            started := Some(o.record);
            if outcome.Some? {
              var ok := InTime(outcome.value);
              if !ok {
                invalid := Some(CorruptRecord);
              }
            }
          case Missing =>
          case Trouble(denied) => trouble := Some(StorageTrouble(!denied));
          case Broken => invalid := Some(CorruptRecord);
          case UnknownSchema => invalid := Some(UnknownVersion);
        }
      }
      if outcome.None? {
        var o := Identify(p.outcome, OutcomeKind);
        match o {
          case Found(o) =>
            outcome := Some(o.record);
            var ok := InTime(o.record);
            if !ok {
              invalid := Some(CorruptRecord);
            }
          case Missing =>
          case Trouble(denied) => trouble := Some(StorageTrouble(!denied));
          case Broken => invalid := Some(CorruptRecord);
          case UnknownSchema => invalid := Some(UnknownVersion);
        }
      }
    }

    /** `durable`: a final record completes the observation exactly when nothing read so far contradicts it. */
    method Durable(p: Poll) returns (final: Option<Record>, issue: Option<Issue>)
      requires Valid()
      modifies this
      ensures Polled(Mind(), final, issue)
              == Polls(old(Mind()), Identified(p.started, StartedKind, binding, ssm),
                       Identified(p.outcome, OutcomeKind, binding, ssm), Identified(p.result, ResultKind, binding, ssm),
                       p.now)
      ensures (started.Some? ==> started.value.Started?) && (outcome.Some? ==> outcome.value.Outcome?)
      ensures !Condemning(issue) ==> Valid()
      ensures var result := Identified(p.result, ResultKind, binding, ssm);
              var contradiction :=
                || (old(started).None? && DamagedOne(Identified(p.started, StartedKind, binding, ssm)))
                || (old(outcome).None? && DamagedOne(Identified(p.outcome, OutcomeKind, binding, ssm)))
                || (outcome.Some? && !ValidTimeline(started, outcome.value))
                || DamagedOne(result)
                || (result.Found? && !ValidTimeline(started, result.observed.record))
                || (result.Found? && outcome.Some? && !SameOutcome(outcome.value, result.observed.record));
              && (Condemning(issue) <==> contradiction)
              && (final.Some? <==> result.Found? && !contradiction)
              && (final.Some? ==> final.value == result.observed.record && issue.None?)
    {
      hide ValidTimeline;
      var invalid, trouble := ReadStarts(p);
      KeptOrder(old(started), old(outcome), started, outcome);
      var result := Identify(p.result, ResultKind);
      if result.Found? {
        var r := result.observed.record;
        var ok := InTime(r);
        if !ok || (outcome.Some? && (outcome.value.span != r.span || outcome.value.finished != r.finished
                                     || outcome.value.evidence != r.evidence)) {
          invalid := Some(CorruptRecord);
        }
        return if invalid.Some? then None else Some(r), invalid;
      }
      if invalid.Some? {
        return None, invalid;
      }
      match result {
        case Broken => return None, Some(CorruptRecord);
        case UnknownSchema => return None, Some(UnknownVersion);
        case Trouble(denied) => return None, Some(StorageTrouble(!denied));
        case _ =>
      }
      if trouble.Some? {
        return None, trouble;
      }
      var expires := if outcome.Some? then Some(outcome.value.span.expires)
        else if started.Some? then Some(started.value.span.expires) else None;
      if expires.Some? && expires.value.nanos <= p.now {
        return None, Some(RetentionPassed);
      }
      return None, None;
    }

    /** A timeline is wrong only with what was read last. */
    lemma KeptOrder(s: Option<Record>, o: Option<Record>, started: Option<Record>, outcome: Option<Record>)
      requires o.Some? ==> ValidTimeline(s, o.value)
      requires (s.Some? ==> started == s) && (o.Some? ==> outcome == o)
      ensures s.Some? && o.Some? ==> ValidTimeline(started, outcome.value)
    {
    }
  }

  /** On records that agree, no poll contradicts what an earlier one remembered. */
  lemma GenuinePoll(p: Poll, xs: set<Observed>, binding: Binding, ssm: SSMID, started: Option<Record>,
                    outcome: Option<Record>)
    requires Genuine(xs, binding, ssm) && HonestPoll(p, xs)
    requires FromRecords(started, StartedKind, xs) && FromRecords(outcome, OutcomeKind, xs)
    ensures !DamagedOne(Identified(p.started, StartedKind, binding, ssm))
            && !DamagedOne(Identified(p.outcome, OutcomeKind, binding, ssm))
    ensures !DamagedOne(Identified(p.result, ResultKind, binding, ssm))
    ensures outcome.Some? ==> ValidTimeline(started, outcome.value)
    ensures p.result.Found? ==> ValidTimeline(started, p.result.observed.record)
                                && (outcome.Some? ==> SameOutcome(outcome.value, p.result.observed.record))
  {
    hide Usable;
    if started.Some? {
      var x :| x in xs && x.record == started.value;
      if outcome.Some? {
        var y :| y in xs && y.record == outcome.value;
        assert Agree(x, y);
      }
      if p.result.Found? {
        assert Agree(x, p.result.observed);
      }
    }
    if outcome.Some? && p.result.Found? {
      var y :| y in xs && y.record == outcome.value;
      assert Agree(y, p.result.observed);
    }
  }

  // ---------------------------------------------------------------- the whole observation

  /** What the service says of the invocation: nothing yet, a status, another identity, or a failed call. */
  datatype Answer = NotThere | Status(terminal: bool) | Foreign | Refused(retryable: bool)

  /** One round: a durable poll, the service's answer if it is asked, and a second poll should the answer end matters.
      */
  datatype Round = Round(first: Poll, asked: bool, answer: Answer, second: Poll)

  datatype Conclusion =
    | Finished(record: Record) | Rejected(issue: Issue) | ForeignInvocation | ServiceFailed
    | WrapperOnly(evidence: Option<Evidence>) | StoppedWaiting

  const MAX_FAILURES := 6

  ghost predicate Retryable(i: Issue) {
    i.StorageTrouble? && i.retryable
  }

  /** Where an observation stands: its memory, and how often in a row storage and the service have failed. */
  datatype Standing = Standing(memory: Memory, storage: nat, service: nat)

  ghost function PollOf(m: Memory, p: Poll, binding: Binding, ssm: SSMID): Polled {
    Polls(m, Identified(p.started, StartedKind, binding, ssm), Identified(p.outcome, OutcomeKind, binding, ssm),
          Identified(p.result, ResultKind, binding, ssm), p.now)
  }

  ghost function EvidenceIn(m: Memory): Option<Evidence> {
    if m.outcome.Some? && m.outcome.value.Outcome? then Some(m.outcome.value.evidence) else None
  }

  /** What becomes of a second poll, after the service's final word or its failure. */
  ghost function Again(s: Standing, t: Round, failed: bool, binding: Binding, ssm: SSMID): (Standing,
                       Option<Conclusion>) {
    var polled := PollOf(s.memory, t.second, binding, ssm);
    var next := s.(memory := polled.memory);
    (next,
     if polled.final.Some? then Some(Finished(polled.final.value))
     else if polled.issue.Some? then (if Retryable(polled.issue.value) then None
               else Some(Rejected(polled.issue.value)))
     else if failed then Some(ServiceFailed) else Some(WrapperOnly(EvidenceIn(next.memory))))
  }

  /** One round: a final record ends it, and so does an issue that is not transient, or the sixth in a row. The
      service's final word, its refusal, or its sixth failure in a row calls for a second poll. */
  ghost function Rounded(s: Standing, t: Round, binding: Binding, ssm: SSMID): (Standing, Option<Conclusion>) {
    var polled := PollOf(s.memory, t.first, binding, ssm);
    var storage := if polled.issue.Some? then s.storage + 1 else 0;
    var service := if !t.asked || t.answer.Foreign? then s.service
                   else if t.answer.Refused? then s.service + 1 else 0;
    if polled.final.Some? then (s.(memory := polled.memory), Some(Finished(polled.final.value)))
    else if polled.issue.Some? && (!Retryable(polled.issue.value) || storage >= 6) then
      (Standing(polled.memory, storage, s.service), Some(Rejected(polled.issue.value)))
    else
      var next := Standing(polled.memory, storage, service);
      if !t.asked then (next, None)
      else
        match t.answer
        case Foreign => (next, Some(ForeignInvocation))
        case Status(true) => Again(next, t, false, binding, ssm)
        case Refused(retryable) => if !retryable
        || service >= 6 then Again(next, t, true, binding, ssm) else (next, None)
        case _ => (next, None)
  }

  /** An observation over all its rounds. */
  ghost function Followed(s: Standing, ts: seq<Round>, binding: Binding, ssm: SSMID): (Conclusion, nat)
    decreases |ts|
  {
    if ts == [] then (StoppedWaiting, 0)
    else
      var (next, end) := Rounded(s, ts[0], binding, ssm);
      if end.Some? then (end.value, 1)
      else
        var (v, used) := Followed(next, ts[1..], binding, ssm);
        (v, used + 1)
  }

  ghost predicate HonestRound(t: Round, xs: set<Observed>) {
    HonestPoll(t.first, xs) && HonestPoll(t.second, xs) && !t.answer.Foreign?
  }

  ghost predicate HonestRounds(ts: seq<Round>, xs: set<Observed>) {
    forall t | t in ts :: HonestRound(t, xs)
  }

  /** What an observer remembers are records it has read. */
  ghost predicate Remembers(o: Observer, xs: set<Observed>)
    reads o
  {
    FromRecords(o.started, StartedKind, xs) && FromRecords(o.outcome, OutcomeKind, xs)
  }

  /** Polling an honest store: no contradiction, and memory stays within the store. */
  method PollHonestly(o: Observer, p: Poll, ghost xs: set<Observed>)
    returns (final: Option<Record>, issue: Option<Issue>)
    requires o.Valid()
    modifies o
    ensures Polled(o.Mind(), final, issue) == PollOf(old(o.Mind()), p, o.binding, o.ssm)
    ensures !Condemning(issue) ==> o.Valid()
    ensures final.Some? ==>
              Identified(p.result, ResultKind, o.binding, o.ssm).Found?
              && final.value == p.result.observed.record && issue.None?
    ensures Genuine(xs, o.binding, o.ssm) && HonestPoll(p, xs) && old(Remembers(o, xs)) ==>
              !Condemning(issue) && Remembers(o, xs) && (final.Some? <==> p.result.Found?)
  {
    hide Polls;
    ghost var s0, o0 := o.started, o.outcome;
    final, issue := o.Durable(p);
    if Genuine(xs, o.binding, o.ssm) && HonestPoll(p, xs) && FromRecords(s0, StartedKind, xs)
       && FromRecords(o0, OutcomeKind, xs) {
      assert FromRecords(o.started, StartedKind, xs);
      assert FromRecords(o.outcome, OutcomeKind, xs);
      GenuinePoll(p, xs, o.binding, o.ssm, o.started, o.outcome);
    }
  }

  /** The service's word is taken only when it is final, and only when a poll after it still found no final record. */
  ghost predicate OutOfOptions(t: Round, v: Conclusion) {
    && (v.WrapperOnly? ==> t.asked && t.answer == Status(true) && !t.first.result.Found? && !t.second.result.Found?)
    && (v.ServiceFailed? ==> t.asked && t.answer.Refused? && !t.first.result.Found? && !t.second.result.Found?)
  }

  /** One round: the durable poll comes first, and a status or failed call is only believed after another poll. */
  method ObserveRound(o: Observer, t: Round, storageBefore: nat, ssmBefore: nat, ghost xs: set<Observed>)
    returns (end: Option<Conclusion>, storageFailures: nat, ssmFailures: nat)
    requires o.Valid() && storageBefore < MAX_FAILURES
    modifies o
    ensures (Standing(o.Mind(), storageFailures, ssmFailures), end)
            == Rounded(Standing(old(o.Mind()), storageBefore, ssmBefore), t, o.binding, o.ssm)
    ensures end.None? ==> o.Valid() && storageFailures <= storageBefore + 1 && storageFailures < MAX_FAILURES
    ensures end.Some? ==> !end.value.StoppedWaiting?
    ensures Genuine(xs, o.binding, o.ssm) && HonestRound(t, xs) && old(Remembers(o, xs)) ==>
              && (end.Some? ==>
                    !end.value.ForeignInvocation?
                    && (end.value.Rejected? ==> !Condemning(Some(end.value.issue))))
              && (end.None? ==> Remembers(o, xs))
              && (t.first.result.Found? ==> end == Some(Finished(t.first.result.observed.record)))
              && (end.Some? && !end.value.Finished? ==> OutOfOptions(t, end.value))
    ensures end.Some? && end.value.WrapperOnly? ==>
              o.Valid() && end.value.evidence == (if o.outcome.Some? then Some(o.outcome.value.evidence) else None)
    ensures end.Some? && end.value.Finished? ==>
              exists r :: r in [t.first.result, t.second.result] && r.Found? && r.observed.record == end.value.record
                                                             && Identified(r, ResultKind, o.binding, o.ssm) == r
    ensures end.Some? && end.value.Rejected? && Retryable(end.value.issue) ==> storageBefore == MAX_FAILURES - 1
  {
    hide Genuine, HonestPoll, Remembers, PollOf, Identified;
    storageFailures, ssmFailures := storageBefore, ssmBefore;
    var final, issue := PollHonestly(o, t.first, xs);
    if final.Some? {
      IdentifiedSame(t.first.result, o.binding, o.ssm);
      assert t.first.result in [t.first.result, t.second.result];
      return Some(Finished(final.value)), storageFailures, ssmFailures;
    }
    if issue.Some? {
      storageFailures := storageFailures + 1;
      if !issue.value.StorageTrouble? || !issue.value.retryable || storageFailures >= MAX_FAILURES {
        return Some(Rejected(issue.value)), storageFailures, ssmFailures;
      }
    } else {
      storageFailures := 0;
    }
    if t.asked {
      if t.answer.Foreign? {
        return Some(ForeignInvocation), storageFailures, ssmFailures;
      }
      ssmFailures := if t.answer.Refused? then ssmFailures + 1 else 0;
      var terminal := t.answer.Status? && t.answer.terminal;
      var failed := t.answer.Refused? && (!t.answer.retryable || ssmFailures >= MAX_FAILURES);
      if terminal || failed {
        end := PollAgain(o, t, failed, storageFailures, ssmFailures, xs);
        return end, storageFailures, ssmFailures;
      }
    }
    return None, storageFailures, ssmFailures;
  }

  /** The poll after the service's final word or its failure: only if it finds nothing is the service believed. */
  method PollAgain(o: Observer, t: Round, failed: bool, ghost storage: nat, ghost service: nat, ghost xs: set<Observed>)
    returns (end: Option<Conclusion>)
    requires o.Valid()
    modifies o
    ensures (Standing(o.Mind(), storage, service), end)
            == Again(Standing(old(o.Mind()), storage, service), t, failed, o.binding, o.ssm)
    ensures end.None? ==> o.Valid()
    ensures end.Some? && end.value.WrapperOnly? ==>
              o.Valid() && end.value.evidence == (if o.outcome.Some? then Some(o.outcome.value.evidence) else None)
    ensures end.Some? && end.value.Finished? ==>
              && t.second.result.Found? && t.second.result.observed.record == end.value.record
              && Identified(t.second.result, ResultKind, o.binding, o.ssm) == t.second.result
    ensures end.Some? && end.value.Rejected? ==> !Retryable(end.value.issue)
    ensures end.Some? ==>
              && !end.value.ForeignInvocation? && !end.value.StoppedWaiting?
              && (end.value.ServiceFailed? ==> failed) && (end.value.WrapperOnly? ==> !failed)
    ensures Genuine(xs, o.binding, o.ssm) && HonestPoll(t.second, xs) && old(Remembers(o, xs)) ==>
              && (end.Some? && end.value.Rejected? ==> !Condemning(Some(end.value.issue)))
              && (end.None? ==> Remembers(o, xs))
              && (end.Some? && !end.value.Finished? ==> !t.second.result.Found?)
  {
    hide Genuine, HonestPoll, Remembers, PollOf, Identified;
    var final, again := PollHonestly(o, t.second, xs);
    if final.Some? {
      IdentifiedSame(t.second.result, o.binding, o.ssm);
      return Some(Finished(final.value));
    }
    if again.Some? {
      if !again.value.StorageTrouble? || !again.value.retryable {
        return Some(Rejected(again.value));
      }
      return None;
    }
    if failed {
      return Some(ServiceFailed);
    }
    return Some(WrapperOnly(if o.outcome.Some? then Some(o.outcome.value.evidence) else None));
  }

  lemma IdentifiedSame(r: Reading, binding: Binding, ssm: SSMID)
    requires Identified(r, ResultKind, binding, ssm).Found?
    ensures r.Found? && Identified(r, ResultKind, binding, ssm) == r
  {
  }

  /** `Observe`, until it concludes or its caller stops waiting. Over any honest storage and service it never concludes
      that anything is corrupt; an exit is reported only from a final record that was read under the submitted
      identity; transient storage failures end it only after six of them in a row; and a
      final record that a round's first poll finds ends it there and then, whatever the service says. */
  method Observe(o: Observer, rounds: seq<Round>, ghost xs: set<Observed>) returns (v: Conclusion, used: nat)
    requires o.started.None? && o.outcome.None?
    modifies o
    ensures used <= |rounds|
    ensures (v, used) == Followed(Standing(Memory(None, None), 0, 0), rounds, o.binding, o.ssm)
    ensures Genuine(xs, o.binding, o.ssm) && HonestRounds(rounds, xs) ==>
              !v.ForeignInvocation? && (v.Rejected? ==> !Condemning(Some(v.issue)))
    ensures v.Finished? ==> exists t, r ::
              t in rounds && r in [t.first.result, t.second.result] && r.Found? && r.observed.record == v.record
                                           && Identified(r, ResultKind, o.binding, o.ssm) == r
    ensures v.Rejected? && Retryable(v.issue) ==> used >= MAX_FAILURES
    ensures v.StoppedWaiting? ==> used == |rounds|
    ensures Genuine(xs, o.binding, o.ssm) && HonestRounds(rounds, xs) ==>
              && (forall k | 0 <= k < used && rounds[k].first.result.Found? ::
                   k == used - 1 && v == Finished(rounds[k].first.result.observed.record))
              && (v.WrapperOnly? || v.ServiceFailed? ==> used > 0 && OutOfOptions(rounds[used - 1], v))
  {
    hide Genuine, HonestRound, Identified, Retryable, Condemning, Rounded;
    ghost var start := Standing(o.Mind(), 0, 0);
    assert rounds[0..] == rounds;
    var storageFailures: nat, ssmFailures: nat := 0, 0;
    used := 0;
    assert Remembers(o, xs);
    while used < |rounds|
      invariant used <= |rounds| && o.Valid() && storageFailures <= used && storageFailures < MAX_FAILURES
      invariant var rest := Followed(Standing(o.Mind(), storageFailures, ssmFailures), rounds[used..], o.binding,
                                     o.ssm);
                Followed(start, rounds, o.binding, o.ssm) == (rest.0, rest.1 + used)
      invariant Genuine(xs, o.binding, o.ssm) && HonestRounds(rounds, xs) ==>
                  Remembers(o, xs) && forall k | 0 <= k < used :: !rounds[k].first.result.Found?
    {
      var t := rounds[used];
      assert t in rounds && rounds[used..][0] == t && rounds[used..][1..] == rounds[used + 1..];
      var end;
      end, storageFailures, ssmFailures := ObserveRound(o, t, storageFailures, ssmFailures, xs);
      used := used + 1;
      if end.Some? {
        return end.value, used;
      }
    }
    return StoppedWaiting, used;
  }
}
