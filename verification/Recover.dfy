/** Rebuilding a verdict from whatever records can be read. */
module Recover {
  import opened Basics
  import opened ExecRecords

  datatype DurableState = NothingDurable | DurablePending | DurableStarted | DurableOutcome | DurableFinal

  /** What has been accepted so far. `records` keeps the last accepted record of each kind. */
  datatype Knowledge = Knowledge(binding: Option<Binding>, ssm: Option<SSMID>, span: Option<Span>, records: map<Kind,
                                 Record>,
                                 startedAt: Option<Stamp>, evidence: Option<(Stamp, Evidence)>, durable: DurableState,
                                 published: Option<bool>)

  const NOTHING := Knowledge(None, None, None, map[], None, None, NothingDurable, None)

  ghost predicate Wellfiled(k: Knowledge) {
    && (StartedKind in k.records ==> k.records[StartedKind].Started?)
    && (OutcomeKind in k.records ==> k.records[OutcomeKind].Outcome?)
    && (ResultKind in k.records ==> k.records[ResultKind].Result?)
  }

  /** The checks of `accept`, against everything accepted before. */
  ghost predicate Acceptable(k: Knowledge, o: Observed)
    requires Wellfiled(k)
  {
    var r := o.record;
    && (k.binding.Some? ==> k.binding.value == r.binding)
    && (k.ssm.Some? && SSMOf(r).Some? ==> k.ssm == SSMOf(r))
    && Usable(o)
    && (SpanOf(o).Some? && k.span.Some? ==> SpanOf(o) == k.span)
    && (r.Started? ==> BeforeEnds(k, r.at))
    && (r.Ended() ==> ConfirmsEnds(k, r))
  }

  predicate SameOutcome(a: Record, b: Record) {
    a.Ended() && b.Ended() && a.span == b.span && a.finished == b.finished && a.evidence == b.evidence
  }

  /** What an accepted record adds. */
  ghost function Learn(k: Knowledge, o: Observed): (l: Knowledge)
    requires Wellfiled(k)
    ensures Wellfiled(l)
  {
    var r := o.record;
    var base := k.(binding := Some(r.binding), durable := if k.binding.None? then DurablePending else k.durable,
                   ssm := if SSMOf(r).Some? then SSMOf(r) else k.ssm,
                   span := if SpanOf(o).Some? then SpanOf(o) else k.span,
                   records := k.records[r.Kind() := r]);
    match r
    case Started(_, _, _, at) =>
      base.(startedAt := Some(at), durable := if k.evidence.None? then DurableStarted else base.durable)
    case Outcome(_, _, _, finished, e) =>
      base.(evidence := Some((finished, e)), durable := DurableOutcome, published := None)
    case Result(_, _, _, finished, e, published, _, _, _) =>
      base.(evidence := Some((finished, e)), durable := DurableFinal, published := Some(published))
    case _ => base
  }

  predicate BeforeEnds(k: Knowledge, at: Stamp)
    requires Wellfiled(k)
  {
    && (OutcomeKind in k.records ==> at.nanos <= k.records[OutcomeKind].finished.nanos)
    && (ResultKind in k.records ==> at.nanos <= k.records[ResultKind].finished.nanos)
  }

  predicate ConfirmsEnds(k: Knowledge, r: Record)
    requires Wellfiled(k) && r.Ended()
  {
    && (StartedKind in k.records ==> k.records[StartedKind].at.nanos <= r.finished.nanos)
    && (OutcomeKind in k.records ==> SameOutcome(k.records[OutcomeKind], r))
    && (ResultKind in k.records ==> SameOutcome(k.records[ResultKind], r))
  }

  /** The recovery object: what is known, and whether any record read so far was contradictory. */
  class Recovery {
    var known: Knowledge
    var invalid: bool

    constructor ()
      ensures known == NOTHING && !invalid
    {
      known, invalid := NOTHING, false;
    }

    /** The part of `accept` that only compares; it also computes the retention that the record fixes. */
    method Check(o: Observed) returns (ok: bool, span: Option<Span>)
      requires Wellfiled(known)
      ensures ok == Acceptable(known, o) && (ok ==> span == SpanOf(o))
    {
      hide BeforeEnds, ConfirmsEnds;
      var r := o.record;
      span := None;
      if (known.binding.Some? && r.binding != known.binding.value)
         || (known.ssm.Some? && !r.Request? && known.ssm.value != r.ssm) {
        return false, span;
      }
      if r.Request? {
        if o.modified == 0 {
          return false, span;
        }
        var submitted, expires := Timestamp(o.modified), Timestamp(Floor(o.modified) + r.retentionDays * DAY);
        if !Readable(submitted) || !Readable(expires) {
          return false, span;
        }
        span := Some(Span(submitted, expires));
      } else if !r.Acknowledgement? {
        span := Some(r.span);
      }
      if span.Some? && known.span.Some? && span != known.span {
        return false, span;
      }
      ok := (r.Started? ==> BeforeEnds(known, r.at)) && (r.Ended() ==> ConfirmsEnds(known, r));
    }

    /** `accept`: a contradiction is remembered for good, and leaves everything trusted before untouched. */
    method Accept(o: Observed) returns (ok: bool)
      requires Wellfiled(known)
      modifies this
      ensures Wellfiled(known) && ok == Acceptable(old(known), o)
      ensures known == (if ok then Learn(old(known), o) else old(known))
      ensures invalid == (old(invalid) || !ok)
    {
      hide Acceptable;
      var span;
      ok, span := Check(o);
      if !ok {
        invalid := true;
        return;
      }
      var r := o.record;
      if known.binding.None? {
        known := known.(binding := Some(r.binding), durable := DurablePending);
      } else {
        BindingAccepted(known, o);
      }
      if !r.Request? {
        known := known.(ssm := Some(r.ssm));
      }
      if span.Some? {
        known := known.(span := span);
      }
      match r {
        case Started(_, _, _, at) =>
          known := known.(startedAt := Some(at),
                          durable := if known.evidence.None? then DurableStarted else known.durable);
        case Outcome(_, _, _, finished, e) =>
          known := known.(evidence := Some((finished, e)), durable := DurableOutcome, published := None);
        case Result(_, _, _, finished, e, published, _, _, _) =>
          known := known.(evidence := Some((finished, e)), durable := DurableFinal, published := Some(published));
        case _ =>
      }
      known := known.(records := known.records[r.Kind() := r]);
    }
  }

  lemma BindingAccepted(k: Knowledge, o: Observed)
    requires Wellfiled(k) && Acceptable(k, o) && k.binding.Some?
    ensures k.binding == Some(o.record.binding)
  {
  }

  // ---------------------------------------------------------------- folding accept over any records

  datatype Fold = Fold(known: Knowledge, invalid: bool)

  /** `accept` over records in the order they are read; a rejected record adds nothing. */
  ghost function Folded(xs: seq<Observed>): (f: Fold)
    ensures Wellfiled(f.known)
  {
    if xs == [] then Fold(NOTHING, false)
    else
      Folding(Folded(xs[..|xs| - 1]), xs[|xs| - 1])
  }

  /** One more record: it adds what it says, or is remembered as a contradiction. */
  ghost function Folding(f: Fold, o: Observed): (g: Fold)
    requires Wellfiled(f.known)
    ensures Wellfiled(g.known)
  {
    if Acceptable(f.known, o) then Fold(Learn(f.known, o), f.invalid) else Fold(f.known, true)
  }

  /** The start named by the last such record read. */
  ghost function LastStart(xs: seq<Observed>): Option<int> {
    if xs == [] then None
    else if xs[|xs| - 1].record.Started? then Some(xs[|xs| - 1].record.at.nanos)
    else LastStart(xs[..|xs| - 1])
  }

  /** No start read earlier is later than the start read last; in particular when all of them name one start. */
  ghost predicate LatestLast(xs: seq<Observed>) {
    forall x | x in xs && x.record.Started? :: LastStart(xs).Some? && x.record.at.nanos <= LastStart(xs).value
  }

  /** Every piece of knowledge comes from a record that was read. */
  ghost predicate Sourced(k: Knowledge, xs: seq<Observed>)
    requires Wellfiled(k)
  {
    && (k.binding.Some? ==> exists x :: x in xs && x.record.binding == k.binding.value)
    && (k.ssm.Some? ==> exists x :: x in xs && SSMOf(x.record) == k.ssm)
    && (k.span.Some? ==> exists x :: x in xs && SpanOf(x) == k.span)
    && (forall kind | kind in k.records :: exists x :: x in xs && x.record == k.records[kind])
  }

  lemma SourcedGrows(k: Knowledge, xs: seq<Observed>, o: Observed)
    requires Wellfiled(k) && Sourced(k, xs)
    ensures Sourced(k, xs + [o])
  {
    hide Wellfiled;
    forall x | x in xs
      ensures x in xs + [o]
    {
    }
    if k.span.Some? {
      var x :| x in xs && SpanOf(x) == k.span;
      assert x in xs + [o];
    }
    if k.ssm.Some? {
      var x :| x in xs && SSMOf(x.record) == k.ssm;
      assert x in xs + [o];
    }
    if k.binding.Some? {
      var x :| x in xs && x.record.binding == k.binding.value;
      assert x in xs + [o];
    }
    forall kind | kind in k.records
      ensures exists x :: x in xs + [o] && x.record == k.records[kind]
    {
      var x :| x in xs && x.record == k.records[kind];
      assert x in xs + [o];
    }
    hide SpanOf, SSMOf;
  }

  lemma LearnSourced(k: Knowledge, ys: seq<Observed>, o: Observed)
    requires Wellfiled(k) && Sourced(k, ys) && o in ys
    ensures Sourced(Learn(k, o), ys)
  {
    hide SpanOf, SSMOf;
  }

  lemma {:induction false} FoldSourced(xs: seq<Observed>)
    ensures Sourced(Folded(xs).known, xs)
  {
    hide Acceptable, Learn, Sourced;
    if xs == [] {
      NothingSourced();
    } else {
      var init := xs[..|xs| - 1];
      FoldSourced(init);
      SourcedGrows(Folded(init).known, init, xs[|xs| - 1]);
      assert xs == init + [xs[|xs| - 1]];
      LearnSourced(Folded(init).known, xs, xs[|xs| - 1]);
    }
  }

  lemma NothingSourced()
    ensures Sourced(NOTHING, [])
  {
  }

  /** What is known speaks for every record that was read. */
  ghost predicate Speaks(k: Knowledge, xs: seq<Observed>)
    requires Wellfiled(k)
  {
    && (forall x | x in xs :: SpeaksFor(k, x))
    && (LastStart(xs).Some? ==> StartedKind in k.records && k.records[StartedKind].at.nanos == LastStart(xs).value)
  }

  ghost predicate SpeaksFor(k: Knowledge, x: Observed)
    requires Wellfiled(k)
  {
    && Usable(x) && k.binding == Some(x.record.binding)
    && (SSMOf(x.record).Some? ==> k.ssm == SSMOf(x.record))
    && (SpanOf(x).Some? ==> k.span == SpanOf(x))
    && (x.record.Ended() ==>
          || (OutcomeKind in k.records && SameOutcome(k.records[OutcomeKind], x.record))
          || (ResultKind in k.records && SameOutcome(k.records[ResultKind], x.record)))
  }

  lemma StillSpeaks(k: Knowledge, o: Observed, x: Observed)
    requires Wellfiled(k) && Acceptable(k, o) && SpeaksFor(k, x)
    ensures SpeaksFor(Learn(k, o), x) && SameFacts(x, o)
    ensures o.record.Started? && x.record.Ended() ==> o.record.at.nanos <= x.record.finished.nanos
  {
    hide Usable;
  }

  lemma NewlySpeaks(k: Knowledge, o: Observed)
    requires Wellfiled(k) && Acceptable(k, o)
    ensures SpeaksFor(Learn(k, o), o)
    ensures o.record.Started? ==> StartedKind in Learn(k, o).records && Learn(k, o).records[StartedKind] == o.record
    ensures !o.record.Started? && StartedKind in k.records ==>
              StartedKind in Learn(k, o).records && Learn(k, o).records[StartedKind] == k.records[StartedKind]
  {
    hide Usable;
  }

  /** One more accepted record: knowledge speaks for it too, and it states the same facts as all before. */
  lemma SpeaksOneMore(k: Knowledge, init: seq<Observed>, o: Observed)
    requires Wellfiled(k) && Acceptable(k, o) && Speaks(k, init)
    ensures Speaks(Learn(k, o), init + [o])
    ensures forall x | x in init :: SameFacts(x, o) && SameFacts(o, x)
    ensures o.record.Started? ==> forall x | x in init && x.record.Ended() ::
              o.record.at.nanos <= x.record.finished.nanos
  {
    hide Acceptable, Learn, SpeaksFor, SameFacts, Wellfiled;
    NewlySpeaks(k, o);
    forall x | x in init
      ensures SpeaksFor(Learn(k, o), x) && SameFacts(x, o) && SameFacts(o, x)
      ensures o.record.Started? && x.record.Ended() ==> o.record.at.nanos <= x.record.finished.nanos
    {
      StillSpeaks(k, o, x);
      SameFactsSymmetric(x, o);
    }
    assert (init + [o])[..|init|] == init;
  }

  ghost predicate AllSame(xs: seq<Observed>) {
    forall x, y | x in xs && y in xs :: SameFacts(x, y)
  }

  ghost predicate NoneBeforeLast(xs: seq<Observed>) {
    forall y | y in xs && y.record.Ended() && LastStart(xs).Some? :: LastStart(xs).value <= y.record.finished.nanos
  }

  lemma AllSameOneMore(init: seq<Observed>, o: Observed)
    requires AllSame(init) && forall x | x in init :: SameFacts(x, o) && SameFacts(o, x)
    ensures AllSame(init + [o])
  {
    SameFactsBasics(o);
    hide SameFacts;
  }

  /** When every record is accepted, all of them state the same facts, and none finished before the start read last. */
  lemma {:induction false} AcceptedAgree(xs: seq<Observed>)
    requires !Folded(xs).invalid
    ensures Speaks(Folded(xs).known, xs) && AllSame(xs) && NoneBeforeLast(xs)
  {
    hide Acceptable, Learn, SpeaksFor, SameFacts, Wellfiled;
    if xs != [] {
      var init, o := xs[..|xs| - 1], xs[|xs| - 1];
      assert xs == init + [o];
      var k := Folded(init).known;
      AcceptedAgree(init);
      SpeaksOneMore(k, init, o);
      AllSameOneMore(init, o);
      if o.record.Ended() && LastStart(init).Some? {
        StartedBefore(k, o);
      }
      hide Speaks, AllSame;
    }
  }

  lemma StartedBefore(k: Knowledge, o: Observed)
    requires Wellfiled(k) && Acceptable(k, o) && o.record.Ended() && StartedKind in k.records
    ensures k.records[StartedKind].at.nanos <= o.record.finished.nanos
  {
  }

  lemma SameFactsBasics(o: Observed)
    ensures SameFacts(o, o)
  {
  }

  lemma SameFactsSymmetric(x: Observed, y: Observed)
    ensures SameFacts(x, y) <==> SameFacts(y, x)
  {
  }

  // ---------------------------------------------------------------- what the fold reports, exactly

  /** Some record is of no use, or two of them state different facts. */
  ghost predicate Clashing(xs: seq<Observed>) {
    (exists x :: x in xs && !Usable(x)) || (exists x, y :: x in xs && y in xs && !SameFacts(x, y))
  }

  /** Some work ended before it started, wherever the two records stand. */
  ghost predicate Disordered(xs: seq<Observed>) {
    exists x, y :: x in xs && y in xs && !InOrder(x, y)
  }

  /** The record at `i` shows disorder against what the fold still knows when it reads it: an end against the last start
      before it, a start against every end before it. */
  ghost predicate NoticedAt(xs: seq<Observed>, i: nat)
    requires i < |xs|
  {
    var r := xs[i].record;
    || (r.Ended() && LastStart(xs[..i]).Some? && r.finished.nanos < LastStart(xs[..i]).value)
    || (r.Started? && exists j :: 0 <= j < i && !InOrder(xs[i], xs[j]))
  }

  ghost predicate Noticed(xs: seq<Observed>) {
    exists i :: 0 <= i < |xs| && NoticedAt(xs, i)
  }

  lemma NoticedMore(init: seq<Observed>, o: Observed)
    ensures Noticed(init + [o]) <==> Noticed(init) || NoticedAt(init + [o], |init|)
    ensures Clashing(init) ==> Clashing(init + [o])
  {
    hide SameFacts, InOrder, Usable;
    var xs := init + [o];
    forall i | 0 <= i < |init|
      ensures NoticedAt(xs, i) <==> NoticedAt(init, i)
    {
      assert xs[..i] == init[..i] && xs[i] == init[i];
      assert forall j | 0 <= j < i :: xs[j] == init[j];
    }
    forall x | x in init
      ensures x in xs
    {
    }
  }

  /** A rejected record whose facts agree with what is known contradicts its order in time. */
  lemma RejectedByTime(k: Knowledge, o: Observed)
    requires Wellfiled(k) && !Acceptable(k, o) && Usable(o)
    requires k.binding.Some? ==> k.binding.value == o.record.binding
    requires k.ssm.Some? && SSMOf(o.record).Some? ==> k.ssm == SSMOf(o.record)
    requires SpanOf(o).Some? && k.span.Some? ==> SpanOf(o) == k.span
    requires o.record.Ended() ==> (OutcomeKind in k.records ==> SameOutcome(k.records[OutcomeKind], o.record))
                                  && (ResultKind in k.records ==> SameOutcome(k.records[ResultKind], o.record))
    ensures || (o.record.Started? && OutcomeKind in k.records
            && k.records[OutcomeKind].finished.nanos < o.record.at.nanos)
            || (o.record.Started? && ResultKind in k.records
               && k.records[ResultKind].finished.nanos < o.record.at.nanos)
            || (o.record.Ended() && StartedKind in k.records
               && o.record.finished.nanos < k.records[StartedKind].at.nanos)
  {
  }

  /** A record that is rejected although it clashes with nothing shows disorder where it stands. */
  lemma RejectedNoticed(init: seq<Observed>, o: Observed)
    requires !Folded(init).invalid && !Acceptable(Folded(init).known, o) && !Clashing(init + [o])
    ensures NoticedAt(init + [o], |init|)
  {
    hide Acceptable, Folded, Speaks, SpanOf, SSMOf, Usable, Clashing, AllSame, NoneBeforeLast;
    var k, xs := Folded(init).known, init + [o];
    assert xs[..|init|] == init && xs[|init|] == o;
    FoldSourced(init);
    AcceptedAgree(init);
    FoldLastStart(init);
    NoClash(k, init, o);
    RejectedByTime(k, o);
    if o.record.Started? {
      var kind := if OutcomeKind in k.records
                     && k.records[OutcomeKind].finished.nanos < o.record.at.nanos
                  then OutcomeKind else ResultKind;
      EndBefore(k, init, o, kind);
      var j :| 0 <= j < |init| && !InOrder(o, init[j]);
      assert xs[j] == init[j];
    }
  }

  lemma EndBefore(k: Knowledge, xs: seq<Observed>, o: Observed, kind: Kind)
    requires Wellfiled(k) && Sourced(k, xs) && o.record.Started? && (kind == OutcomeKind || kind == ResultKind)
    requires kind in k.records && k.records[kind].finished.nanos < o.record.at.nanos
    ensures exists j :: 0 <= j < |xs| && !InOrder(o, xs[j])
  {
    hide Usable, SpanOf, SSMOf;
    var x :| x in xs && x.record == k.records[kind];
    var j :| 0 <= j < |xs| && xs[j] == x;
    assert !InOrder(o, xs[j]);
  }

  /** What the fold knows of starts is the start it read last. */
  lemma FoldLastStart(xs: seq<Observed>)
    requires Speaks(Folded(xs).known, xs) && Sourced(Folded(xs).known, xs)
    ensures StartedKind in Folded(xs).known.records ==>
              LastStart(xs).Some? && Folded(xs).known.records[StartedKind].at.nanos == LastStart(xs).value
  {
    LastStartFound(xs);
  }

  /** Facts that agree with everything read before agree with what is known. */
  lemma NoClash(k: Knowledge, xs: seq<Observed>, o: Observed)
    requires Wellfiled(k) && Sourced(k, xs) && !Clashing(xs + [o])
    ensures Usable(o) && (k.binding.Some? ==> k.binding.value == o.record.binding)
    ensures k.ssm.Some? && SSMOf(o.record).Some? ==> k.ssm == SSMOf(o.record)
    ensures SpanOf(o).Some? && k.span.Some? ==> SpanOf(o) == k.span
    ensures o.record.Ended() ==> (OutcomeKind in k.records ==> SameOutcome(k.records[OutcomeKind], o.record))
                                 && (ResultKind in k.records ==> SameOutcome(k.records[ResultKind], o.record))
  {
    hide Usable;
    var ys := xs + [o];
    assert o in ys;
    forall x | x in xs
      ensures SameFacts(x, o)
    {
      assert x in ys;
    }
    if o.record.Ended() && OutcomeKind in k.records {
      var x :| x in xs && x.record == k.records[OutcomeKind];
    }
    if o.record.Ended() && ResultKind in k.records {
      var x :| x in xs && x.record == k.records[ResultKind];
    }
  }

  /** A record that is accepted shows no disorder where it stands. */
  lemma AcceptedUnnoticed(init: seq<Observed>, o: Observed)
    requires !Folded(init).invalid && Acceptable(Folded(init).known, o)
    ensures !NoticedAt(init + [o], |init|)
  {
    hide Usable, SameFacts;
    var k, xs := Folded(init).known, init + [o];
    assert xs[..|init|] == init && xs[|init|] == o;
    AcceptedAgree(init);
    if o.record.Started? {
      forall j | 0 <= j < |init|
        ensures InOrder(o, xs[j])
      {
        assert SpeaksFor(k, init[j]);
      }
    }
  }

  /** What `accept` reports over any records in any order, without any provision: a record of no use, two that state
      different facts, an end before the start read last, or a start after an end read before. */
  lemma {:induction false} FoldReports(xs: seq<Observed>)
    ensures Folded(xs).invalid <==> Clashing(xs) || Noticed(xs)
  {
    hide Acceptable, Learn, Clashing, NoticedAt, Usable, SameFacts, InOrder;
    if xs == [] {
      NothingClashes();
    } else {
      var init, o := xs[..|xs| - 1], xs[|xs| - 1];
      assert xs == init + [o];
      FoldReports(init);
      NoticedMore(init, o);
      if !Folded(init).invalid {
        if Acceptable(Folded(init).known, o) {
          AcceptedUnnoticed(init, o);
          AcceptedClashless(xs);
        } else if !Clashing(xs) {
          RejectedNoticed(init, o);
        }
      }
    }
  }

  lemma NothingClashes()
    ensures !Clashing([]) && !Noticed([])
  {
  }

  lemma AcceptedClashless(xs: seq<Observed>)
    requires !Folded(xs).invalid
    ensures !Clashing(xs)
  {
    hide SameFacts, Usable;
    AcceptedAgree(xs);
    forall x | x in xs
      ensures Usable(x)
    {
      assert SpeaksFor(Folded(xs).known, x);
    }
  }

  /** Records are consonant when they neither clash nor stand out of order. */
  lemma ConsonantOrNot(xs: seq<Observed>)
    ensures Consonant(Elems(xs)) <==> !Clashing(xs) && !Disordered(xs)
  {
    hide Usable, SameFacts, InOrder;
    if Consonant(Elems(xs)) {
      forall x, y | x in xs && y in xs
        ensures Usable(x) && SameFacts(x, y) && InOrder(x, y)
      {
        assert x in Elems(xs) && y in Elems(xs) && Agree(x, y);
      }
    }
  }

  /** Exactly when the fold decides whether records agree: when they clash anyway, or every disorder among them is one
      that shows where it is read. */
  lemma FoldDecidesExactly(xs: seq<Observed>)
    ensures (Folded(xs).invalid <==> !Consonant(Elems(xs))) <==> Clashing(xs) || (Disordered(xs) ==> Noticed(xs))
  {
    hide Clashing, Disordered, Noticed, Consonant;
    FoldReports(xs);
    ConsonantOrNot(xs);
    NoticedDisorder(xs);
  }

  lemma NoticedDisorder(xs: seq<Observed>)
    ensures Noticed(xs) ==> Disordered(xs)
  {
    if i :| 0 <= i < |xs| && NoticedAt(xs, i) {
      LastStartFound(xs[..i]);
      assert xs[i] in xs && forall x | x in xs[..i] :: x in xs;
      if xs[i].record.Ended() && LastStart(xs[..i]).Some? && xs[i].record.finished.nanos < LastStart(xs[..i]).value {
        var x :| x in xs[..i] && x.record.Started? && LastStart(xs[..i]).value == x.record.at.nanos;
        assert !InOrder(x, xs[i]);
      }
    }
  }

  /** Where the last start of a prefix comes from, and that later starts replace it. */
  lemma {:induction false} LastStartPlace(xs: seq<Observed>, n: nat)
    requires n <= |xs| && LastStart(xs).Some?
    ensures LastStart(xs[..n]) == LastStart(xs) || exists k ::
              n <= k < |xs| && xs[k].record.Started? && xs[k].record.at.nanos == LastStart(xs).value
  {
    if n < |xs| {
      var init, o := xs[..|xs| - 1], xs[|xs| - 1];
      if !o.record.Started? {
        LastStartPlace(init, n);
        assert init[..n] == xs[..n];
      }
    } else {
      assert xs[..n] == xs;
    }
  }

  /** When the start read last is the latest, every disorder shows where it is read. */
  lemma LatestNotices(xs: seq<Observed>)
    requires LatestLast(xs) && Disordered(xs)
    ensures Noticed(xs)
  {
    var x, y :| x in xs && y in xs && !InOrder(x, y);
    var q :| 0 <= q < |xs| && xs[q] == y;
    LastStartPlace(xs, q);
    if LastStart(xs[..q]) == LastStart(xs) {
      assert NoticedAt(xs, q);
    } else {
      var k :| q <= k < |xs| && xs[k].record.Started? && xs[k].record.at.nanos == LastStart(xs).value;
      assert !InOrder(xs[k], xs[q]);
      assert NoticedAt(xs, k);
    }
  }

  /** Folding `accept` over any records reports corruption exactly when one of them is of no use or two disagree,
      provided no start read earlier is later than the start read last. */
  lemma FoldDecides(xs: seq<Observed>)
    requires LatestLast(xs)
    ensures Folded(xs).invalid <==> !Consonant(Elems(xs))
  {
    hide Clashing, Disordered, Noticed, Consonant, LatestLast;
    FoldDecidesExactly(xs);
    if Disordered(xs) {
      LatestNotices(xs);
    }
  }

  /** Without that provision nothing is ever reported wrongly, but a contradiction can be missed. */
  lemma NeverReportedWrongly(xs: seq<Observed>)
    requires Consonant(Elems(xs))
    ensures !Folded(xs).invalid
  {
    hide Clashing, Disordered, Noticed, Consonant;
    FoldReports(xs);
    ConsonantOrNot(xs);
    NoticedDisorder(xs);
  }

  /** All started records name one instant. */
  ghost predicate OneStart(xs: seq<Observed>) {
    forall x, y | x in xs && y in xs && x.record.Started? && y.record.Started? :: x.record.at.nanos == y.record.at.nanos
  }

  lemma {:induction false} LastStartFound(xs: seq<Observed>)
    ensures LastStart(xs).Some? <==> exists x :: x in xs && x.record.Started?
    ensures LastStart(xs).Some? ==> exists x :: x in xs && x.record.Started? && LastStart(xs).value == x.record.at.nanos
  {
    if xs != [] {
      var init, o := xs[..|xs| - 1], xs[|xs| - 1];
      assert xs == init + [o];
      LastStartFound(init);
      if x :| x in init && x.record.Started? {
        assert x in xs;
      }
      if o.record.Started? {
        assert o in xs;
      } else if LastStart(init).Some? {
        var x :| x in init && x.record.Started? && LastStart(init).value == x.record.at.nanos;
        assert x in xs;
      }
    }
  }

  /** The verdict does not depend on the order of the reads, nor on repeated ones. */
  lemma OrderIrrelevant(xs: seq<Observed>, ys: seq<Observed>)
    requires OneStart(xs) && Elems(xs) == Elems(ys)
    ensures Folded(xs).invalid == Folded(ys).invalid
  {
    hide Usable, Agree;
    LastStartFound(xs);
    LastStartFound(ys);
    forall x | x in ys
      ensures x in xs
    {
      assert x in Elems(ys);
    }
    FoldDecides(xs);
    FoldDecides(ys);
  }

  /** Inputs on which the fold misses a contradiction: once a start that is not the latest was read last, and no end was
      read yet, some outcome is accepted although it lies before another start that was accepted too. */
  lemma ShadowedStartMisses(xs: seq<Observed>, span: Span, evidence: Evidence) returns (o: Observed)
    requires !Folded(xs).invalid && !LatestLast(xs)
    requires forall x | x in xs :: !x.record.Ended()
    requires forall x | x in xs && SpanOf(x).Some? :: SpanOf(x).value == span
    ensures !Folded(xs + [o]).invalid && !Consonant(Elems(xs + [o]))
  {
    hide Usable, SpanOf;
    var x :| x in xs && x.record.Started? && !(LastStart(xs).Some? && x.record.at.nanos <= LastStart(xs).value);
    LastStartFound(xs);
    AcceptedAgree(xs);
    FoldSourced(xs);
    var k := Folded(xs).known;
    assert SpeaksFor(k, x);
    o := Observed(Outcome(x.record.binding, x.record.ssm, x.record.span, Stamp(LastStart(xs).value, ""), evidence), 0);
    assert (xs + [o])[..|xs|] == xs;
    OutcomeAcceptable(k, xs, x, o);
    assert x in xs + [o] && o in xs + [o];
    assert x in Elems(xs + [o]) && o in Elems(xs + [o]) && !Agree(x, o);
  }

  lemma OutcomeAcceptable(k: Knowledge, xs: seq<Observed>, x: Observed, o: Observed)
    requires Wellfiled(k) && Sourced(k, xs) && SpeaksFor(k, x) && x.record.Started?
    requires forall y | y in xs :: !y.record.Ended()
    requires o.record.Outcome? && o.record.binding == x.record.binding && o.record.ssm == x.record.ssm
             && o.record.span == x.record.span
    requires StartedKind in k.records && k.records[StartedKind].at.nanos <= o.record.finished.nanos
    ensures Acceptable(k, o)
  {
  }

  // ---------------------------------------------------------------- the order of reads and the verdict

  datatype Reading = Found(observed: Observed) | Missing | Broken | UnknownSchema | Trouble(denied: bool)

  /** A record that is not of the kind its key names is a broken object. */
  function Checked(r: Reading, kind: Kind): (c: Reading)
    ensures if r.Found? then (if r.observed.record.Kind() == kind then c == r else c == Broken) else c == r
  {
    if r.Found? && r.observed.record.Kind() != kind then Broken else r
  }

  /** The answers of one recovery: the final record is read first and again last. */
  datatype Answers = Answers(early: Reading, outcome: Reading, started: Reading, acknowledgement: Reading,
                             request: Reading, late: Reading)

  /** The answer of the SSM service about the invocation, when it is asked. */
  datatype Invocation = NoAnswer | Running | InvocationEnded | ForeignIdentity | InvocationTrouble(denied: bool)

  datatype Verdict = Completed | Incomplete | Expired | Corrupt | Unsupported | Unavailable | AccessDenied | Pending
                   | ExecutionUnknown | MissingOrExpired | Stopped

  ghost function MiddleSlots(a: Answers): seq<Reading> {
    [Checked(a.outcome, OutcomeKind), Checked(a.started, StartedKind), Checked(a.acknowledgement, AcknowledgementKind),
     Checked(a.request, RequestKind)]
  }

  ghost function FoundIn(slots: seq<Reading>): seq<Observed> {
    if slots == [] then []
    else FoundIn(slots[..|slots| - 1]) + (if slots[|slots| - 1].Found? then [slots[|slots| - 1].observed] else [])
  }

  ghost predicate DamagedOne(r: Reading) {
    r.Broken? || r.UnknownSchema?
  }

  ghost predicate Troubled(slots: seq<Reading>) {
    exists r :: r in slots && r.Trouble?
  }

  ghost predicate Damaged(slots: seq<Reading>) {
    exists r :: r in slots && DamagedOne(r)
  }

  /** Broken storage, or records that contradict one another or are of no use: everything a recovery calls corrupt. */
  ghost predicate Contradictory(a: Answers) {
    var slots := MiddleSlots(a) + [Checked(a.late, ResultKind)];
    DamagedOne(Checked(a.early, ResultKind)) || Damaged(slots) || !Consonant(Elems(FoundIn(slots)))
  }

  ghost predicate Condemned(v: Verdict) {
    v == Corrupt || v == Unsupported
  }

  function IssueOf(r: Reading): Verdict {
    match r
    case UnknownSchema => Unsupported
    case Trouble(denied) => if denied then AccessDenied else Unavailable
    case _ => Corrupt
  }

  predicate PastRetention(k: Knowledge, now: int) {
    k.span.Some? && k.span.value.expires.nanos <= now
  }

  ghost predicate FullyPublished(r: Record) {
    r.Result? && r.evidence.captured && r.published && r.stdoutUpload == UploadComplete
    && r.stderrUpload == UploadComplete
  }

  function FinalVerdict(k: Knowledge, r: Record, now: int): Verdict {
    if PastRetention(k, now) then Expired
    else if !r.Result? || !r.evidence.captured || !r.published
            || r.stdoutUpload != UploadComplete || r.stderrUpload != UploadComplete
    then Incomplete else Completed
  }

  /** The verdict a final record calls for by itself: its own deadline, then whether it was fully published. */
  ghost function VerdictOf(r: Record, now: int): Verdict
    requires r.Result?
  {
    if r.span.expires.nanos <= now then Expired else if !FullyPublished(r) then Incomplete else Completed
  }

  /** An accepted final record is judged by its own retention: whatever was known before cannot have moved it. */
  lemma JudgedAlone(k: Knowledge, o: Observed, now: int)
    requires Wellfiled(k) && Acceptable(k, o) && o.record.Result?
    ensures FinalVerdict(Learn(k, o), o.record, now) == VerdictOf(o.record, now)
  {
  }

  ghost predicate HasEnd(xs: seq<Observed>) {
    exists x :: x in xs && x.record.Ended()
  }

  /** Evidence is known exactly when an end was accepted, and a binding when anything was. */
  lemma {:induction false} FoldEnded(xs: seq<Observed>)
    ensures Folded(xs).known.evidence.Some? ==> HasEnd(xs)
    ensures !Folded(xs).invalid ==>
              (Folded(xs).known.evidence.Some? <==> HasEnd(xs))
              && (Folded(xs).known.binding.Some? <==> xs != [])
  {
    hide Acceptable, Wellfiled, SpanOf, SSMOf;
    if xs != [] {
      var init, o := xs[..|xs| - 1], xs[|xs| - 1];
      FoldEnded(init);
      assert xs == init + [o];
    }
  }

  lemma FoldStep(xs: seq<Observed>, o: Observed)
    ensures Folded(xs + [o]) == Folding(Folded(xs), o)
  {
    assert (xs + [o])[..|xs|] == xs;
  }

  lemma FoundStep(slots: seq<Reading>, r: Reading)
    ensures FoundIn(slots + [r]) == FoundIn(slots) + (if r.Found? then [r.observed] else [])
    ensures !r.Found? ==> FoundIn(slots + [r]) == FoundIn(slots)
    ensures Damaged(slots + [r]) <==> Damaged(slots) || DamagedOne(r)
  {
    assert (slots + [r])[..|slots|] == slots;
    assert r in slots + [r];
  }

  /** The last thing among some readings that condemns: a broken object, an unknown schema, or a record that contradicts
      those read before it. */
  ghost function LastIssue(first: Option<Verdict>, slots: seq<Reading>): Option<Verdict> {
    if slots == [] then first
    else
      var init, last := slots[..|slots| - 1], slots[|slots| - 1];
      if last.UnknownSchema? then Some(Unsupported)
      else if last.Broken? || (last.Found? && !Acceptable(Folded(FoundIn(init)).known, last.observed))
                then Some(Corrupt)
      else LastIssue(first, init)
  }

  /** The last storage trouble among some readings. */
  ghost function LastTrouble(slots: seq<Reading>): Option<Verdict> {
    if slots == [] then None
    else
      var last := slots[|slots| - 1];
      if last.Trouble? then Some(if last.denied then AccessDenied else Unavailable)
      else LastTrouble(slots[..|slots| - 1])
  }

  lemma LastStep(first: Option<Verdict>, slots: seq<Reading>, r: Reading)
    ensures LastIssue(first, slots + [r])
            == if r.UnknownSchema? then Some(Unsupported)
               else if r.Broken? || (r.Found? && !Acceptable(Folded(FoundIn(slots)).known, r.observed))
                         then Some(Corrupt)
               else LastIssue(first, slots)
    ensures LastTrouble(slots + [r])
            == if r.Trouble? then Some(if r.denied then AccessDenied else Unavailable) else LastTrouble(slots)
  {
    hide Acceptable, Folded;
    assert (slots + [r])[..|slots|] == slots;
  }

  lemma {:induction false} TroubleKind(slots: seq<Reading>)
    ensures LastTrouble(slots).Some? ==>
              LastTrouble(slots).value == Unavailable || LastTrouble(slots).value == AccessDenied
  {
    if slots != [] {
      TroubleKind(slots[..|slots| - 1]);
    }
  }

  /** One optional slot: a record is folded in, anything else but absence is remembered. */
  method ReadSlot(r: Recovery, slot: Reading, first: Option<Verdict>, second: Option<Verdict>)
    returns (issue: Option<Verdict>, trouble: Option<Verdict>)
    requires Wellfiled(r.known)
    modifies r
    ensures Wellfiled(r.known)
    ensures Fold(r.known, r.invalid)
            == (if slot.Found? then Folding(Fold(old(r.known), old(r.invalid)), slot.observed)
                else Fold(old(r.known), old(r.invalid)))
    ensures issue == if slot.UnknownSchema? then Some(Unsupported)
                     else if slot.Broken? || (slot.Found? && !Acceptable(old(r.known), slot.observed))
                               then Some(Corrupt)
                     else first
    ensures trouble == if slot.Trouble? then Some(if slot.denied then AccessDenied else Unavailable) else second
  {
    hide Acceptable, Learn;
    issue, trouble := first, second;
    match slot {
      case Found(o) =>
        var ok := r.Accept(o);
        if !ok {
          issue := Some(Corrupt);
        }
      case Missing =>
      case Trouble(_) => trouble := Some(IssueOf(slot));
      case _ => issue := Some(IssueOf(slot));
    }
  }

  /** The middle loop of `Recover`: one slot after another, none of them required; `issue` is the last one that
      condemns, `trouble` the last one that does not. */
  method ReadMiddle(r: Recovery, slots: seq<Reading>, first: Option<Verdict>, patience: nat)
    returns (issue: Option<Verdict>, trouble: Option<Verdict>, stopped: bool)
    requires r.known == NOTHING && !r.invalid && (first.Some? ==> Condemned(first.value))
    modifies r
    ensures Wellfiled(r.known)
    ensures !stopped ==> Fold(r.known, r.invalid) == Folded(FoundIn(slots))
    ensures !stopped ==> (issue.Some? <==> first.Some? || Damaged(slots) || r.invalid)
    ensures !stopped ==> issue == LastIssue(first, slots) && trouble == LastTrouble(slots)
    ensures issue.Some? ==> Condemned(issue.value)
    ensures stopped <==> patience < |slots|
  {
    hide Acceptable, Learn, Wellfiled, Damaged, LastIssue, LastTrouble;
    issue, trouble, stopped := first, None, false;
    NoSlots(first);
    for n := 0 to |slots|
      invariant Wellfiled(r.known) && Fold(r.known, r.invalid) == Folded(FoundIn(slots[..n])) && n <= patience
      invariant issue.Some? <==> first.Some? || Damaged(slots[..n]) || r.invalid
      invariant issue == LastIssue(first, slots[..n]) && trouble == LastTrouble(slots[..n])
      invariant issue.Some? ==> Condemned(issue.value)
    {
      var slot := slots[n];
      assert slots[..n + 1] == slots[..n] + [slot];
      FoundStep(slots[..n], slot);
      LastStep(first, slots[..n], slot);
      if slot.Found? {
        FoldStep(FoundIn(slots[..n]), slot.observed);
      }
      issue, trouble := ReadSlot(r, slot, issue, trouble);
      if patience <= n {
        stopped := true;
        return;
      }
    }
    assert slots[..|slots|] == slots;
  }

  lemma NoSlots(first: Option<Verdict>)
    ensures !Damaged([]) && Wellfiled(NOTHING) && LastIssue(first, []) == first && LastTrouble([]).None?
  {
  }

  /** What remains when no final record is there. */
  function Fallback(k: Knowledge, trouble: Option<Verdict>, invocation: Option<Invocation>, now: int): Verdict {
    if trouble.Some? then trouble.value
    else if PastRetention(k, now) then Expired
    else if k.evidence.Some? then Incomplete
    else match invocation
         case Some(InvocationTrouble(denied)) => if denied then AccessDenied else Unavailable
         case Some(Running) => Pending
         case Some(InvocationEnded) => if k.binding.Some? then ExecutionUnknown else MissingOrExpired
         case _ =>
           if k.durable == DurableStarted then Pending
           else if k.binding.Some? then ExecutionUnknown else MissingOrExpired
  }

  /** The second read of the final record, and the verdict without one. */
  method ReadLate(r: Recovery, late: Reading, trouble: Option<Verdict>, invocation: Option<Invocation>, now: int,
                  patience: nat) returns (v: Verdict)
    requires Wellfiled(r.known) && (late.Found? ==> late.observed.record.Result?) && trouble != Some(Stopped)
    modifies r
    ensures v == Stopped <==> patience == 0 && !(late.Found? && Acceptable(old(r.known), late.observed))
    ensures v != Stopped ==>
              v == match late {
                     case Found(o) => if Acceptable(old(r.known), o) then VerdictOf(o.record, now) else Corrupt
                     case Missing => Fallback(old(r.known), trouble, invocation, now)
                     case Broken => Corrupt
                     case UnknownSchema => Unsupported
                     case Trouble(denied) => if denied then AccessDenied else Unavailable
                   }
  {
    hide Acceptable, Learn;
    if late.Found? {
      var ok := r.Accept(late.observed);
      if ok {
        JudgedAlone(old(r.known), late.observed, now);
        return FinalVerdict(r.known, late.observed.record, now);
      }
    }
    if patience == 0 {
      return Stopped;
    }
    if late.Found? {
      return Corrupt;
    }
    if !late.Missing? {
      return IssueOf(late);
    }
    return Fallback(r.known, trouble, invocation, now);
  }

  /** Some record names a retention that is over. */
  ghost predicate Lapsed(xs: seq<Observed>, now: int) {
    exists x :: x in xs && SpanOf(x).Some? && SpanOf(x).value.expires.nanos <= now
  }

  lemma FoldLapsed(xs: seq<Observed>, now: int)
    requires !Folded(xs).invalid
    ensures PastRetention(Folded(xs).known, now) <==> Lapsed(xs, now)
  {
    hide Folded, SpanOf, Usable;
    AcceptedAgree(xs);
    FoldSourced(xs);
  }

  /** The service is asked only about a known invocation whose retention is not over. */
  ghost predicate Asked(xs: seq<Observed>, ask: bool, now: int) {
    ask && (exists x :: x in xs && SSMOf(x.record).Some?) && !Lapsed(xs, now)
  }

  ghost predicate HasStart(xs: seq<Observed>) {
    exists x :: x in xs && x.record.Started?
  }

  /** The verdict without a final record: storage trouble first, then a retention that is over, then recorded work, then
      what the service says, then what was read at all. A command counts as pending when the service says that it runs,
      or says nothing although its start is on record. */
  ghost function Without(slots: seq<Reading>, answer: Invocation, now: int): Verdict {
    var xs := FoundIn(slots);
    if LastTrouble(slots).Some? then LastTrouble(slots).value
    else if Lapsed(xs, now) then Expired
    else if HasEnd(xs) then Incomplete
    else if answer.InvocationTrouble? then (if answer.denied then AccessDenied else Unavailable)
    else if answer.Running? || (!answer.InvocationEnded? && HasStart(xs)) then Pending
    else if xs != [] then ExecutionUnknown else MissingOrExpired
  }

  /** The verdict that the answers of one recovery call for. */
  ghost function Owed(a: Answers, ask: bool, invocation: Invocation, now: int): Verdict {
    var early, slots, late := Checked(a.early, ResultKind), MiddleSlots(a), Checked(a.late, ResultKind);
    var xs := FoundIn(slots);
    if early.Found? then VerdictOf(early.observed.record, now)
    else if LastIssue(DamageOf(early), slots).Some? then LastIssue(DamageOf(early), slots).value
    else if Asked(xs, ask, now) && invocation.ForeignIdentity? then Corrupt
    else match late
         case Found(o) => if Acceptable(Folded(xs).known, o) then VerdictOf(o.record, now) else Corrupt
         case Missing => Without(slots, if Asked(xs, ask, now) then invocation else NoAnswer, now)
         case Broken => Corrupt
         case UnknownSchema => Unsupported
         case Trouble(denied) => if denied then AccessDenied else Unavailable
  }

  /** How often a recovery looks at the caller's context: before anything is read, after the first look for the final
      record, after each other record, after asking the service, and after a last look that found nothing to accept. */
  ghost function ChecksMade(a: Answers, ask: bool, invocation: Invocation, now: int): nat {
    var early, slots, late := Checked(a.early, ResultKind), MiddleSlots(a), Checked(a.late, ResultKind);
    var xs := FoundIn(slots);
    var asked := Asked(xs, ask, now);
    if early.Found? then 1
    else if LastIssue(DamageOf(early), slots).Some? || (asked && invocation.ForeignIdentity?) then 6
    else (if asked then 7 else 6)
         + (if late.Found? && Acceptable(Folded(xs).known, late.observed) then 0 else 1)
  }

  ghost function DamageOf(r: Reading): Option<Verdict> {
    match r
    case UnknownSchema => Some(Unsupported)
    case Broken => Some(Corrupt)
    case _ => None
  }

  /** What is known after the middle reads speaks for them in all that the verdict without a final record asks. */
  lemma FallbackOwed(slots: seq<Reading>, invocation: Option<Invocation>, now: int)
    requires !Folded(FoundIn(slots)).invalid && (invocation.Some? ==> !invocation.value.ForeignIdentity?)
    ensures Fallback(Folded(FoundIn(slots)).known, LastTrouble(slots), invocation, now)
            == Without(slots, if invocation.Some? then invocation.value else NoAnswer, now)
  {
    hide Folded, FoundIn, HasEnd, PastRetention, Lapsed, LastTrouble, HasStart;
    FoldEnded(FoundIn(slots));
    FoldLapsed(FoundIn(slots), now);
    FoldStarted(FoundIn(slots));
  }

  lemma {:induction false} FoldStarted(xs: seq<Observed>)
    ensures Folded(xs).known.durable == DurableStarted ==> HasStart(xs)
    ensures !Folded(xs).invalid && !HasEnd(xs) ==> (Folded(xs).known.durable == DurableStarted <==> HasStart(xs))
  {
    hide Acceptable, Wellfiled, SpanOf, SSMOf;
    if xs != [] {
      var init, o := xs[..|xs| - 1], xs[|xs| - 1];
      FoldStarted(init);
      FoldEnded(init);
      assert xs == init + [o];
    }
  }

  /** A known invocation is one that some record names. */
  lemma FoldSSM(xs: seq<Observed>)
    requires !Folded(xs).invalid
    ensures Folded(xs).known.ssm.Some? <==> exists x :: x in xs && SSMOf(x.record).Some?
    ensures Folded(xs).known.ssm.Some? ==> Folded(xs).known.binding.Some?
  {
    hide Folded, SpanOf, Usable;
    AcceptedAgree(xs);
    FoldSourced(xs);
    if x :| x in xs && SSMOf(x.record).Some? {
      assert SpeaksFor(Folded(xs).known, x);
    }
  }

  /** `Recover`. `patience` is the number of checks of the caller's context that still succeed; the verdict is the one
      that the answers call for exactly if none of the checks it takes fails. A verdict of corruption is never wrong,
      and
      unless the caller gave up or a final record was accepted at once it is never missing. */
  method Recover(a: Answers, ask: bool, invocation: Invocation, now: int, patience: nat) returns (v: Verdict)
    ensures v == if patience < ChecksMade(a, ask, invocation, now) then Stopped else Owed(a, ask, invocation, now)
    ensures Condemned(v) ==> Contradictory(a) || (ask && invocation.ForeignIdentity?)
    ensures v != Stopped && !Checked(a.early, ResultKind).Found? && Contradictory(a) ==> Condemned(v)
  {
    hide Acceptable, Learn, Consonant, FullyPublished, Fallback, Damaged, FoundIn, Folded, HasEnd, Without, LastIssue;
    if patience < 1 {
      return Stopped;
    }
    var early := Checked(a.early, ResultKind);
    var r := new Recovery();
    if early.Found? {
      FirstAccepted(early.observed);
      JudgedAlone(NOTHING, early.observed, now);
      NeverStopped(early.observed.record, now);
      var _ := r.Accept(early.observed);
      return FinalVerdict(r.known, early.observed.record, now);
    }
    if patience < 2 {
      return Stopped;
    }
    var first := if early.Broken? || early.UnknownSchema? then Some(IssueOf(early)) else None;
    v := RecoverLate(r, a, first, ask, invocation, now, patience);
  }

  lemma NeverStopped(r: Record, now: int)
    requires r.Result?
    ensures VerdictOf(r, now) in {Expired, Incomplete, Completed}
  {
  }

  /** Everything after a first look that found no final record. */
  method RecoverLate(r: Recovery, a: Answers, first: Option<Verdict>, ask: bool, invocation: Invocation, now: int,
                     patience: nat) returns (v: Verdict)
    requires r.known == NOTHING && !r.invalid && patience >= 2 && !Checked(a.early, ResultKind).Found?
    requires first == DamageOf(Checked(a.early, ResultKind))
    modifies r
    ensures v == if patience < ChecksMade(a, ask, invocation, now) then Stopped else Owed(a, ask, invocation, now)
    ensures Condemned(v) ==> Contradictory(a) || (ask && invocation.ForeignIdentity?)
    ensures v != Stopped && Contradictory(a) ==> Condemned(v)
  {
    hide Acceptable, Learn, Consonant, FullyPublished, Fallback, Damaged, FoundIn, Folded, HasEnd, Without, LastIssue,
         LastTrouble, Lapsed, VerdictOf, Contradictory;
    var slots := [Checked(a.outcome, OutcomeKind), Checked(a.started, StartedKind),
                  Checked(a.acknowledgement, AcknowledgementKind), Checked(a.request, RequestKind)];
    assert slots == MiddleSlots(a);
    var issue, trouble, stopped := ReadMiddle(r, slots, first, patience - 2);
    if stopped {
      return Stopped;
    }
    IssueContradicts(a, issue);
    if issue.Some? {
      return issue.value;
    }
    v := RecoverLast(r, a, trouble, ask, invocation, now, patience);
  }

  /** What condemned the readings so far is a contradiction. */
  lemma IssueContradicts(a: Answers, issue: Option<Verdict>)
    ensures DamageOf(Checked(a.early, ResultKind)).Some? ==> Contradictory(a)
    ensures Damaged(MiddleSlots(a)) || Folded(FoundIn(MiddleSlots(a))).invalid ==> Contradictory(a)
  {
    hide Folded, FoundIn, Consonant, MiddleSlots;
    OneStartRead(a);
    FoundStep(MiddleSlots(a), Checked(a.late, ResultKind));
  }

  /** Nothing read so far is contradictory: the service may be asked, and the final record is looked for once more. */
  method RecoverLast(r: Recovery, a: Answers, trouble: Option<Verdict>, ask: bool, invocation: Invocation, now: int,
                     patience: nat) returns (v: Verdict)
    requires Wellfiled(r.known) && !r.invalid && Fold(r.known, false) == Folded(FoundIn(MiddleSlots(a)))
    requires trouble == LastTrouble(MiddleSlots(a)) && !Damaged(MiddleSlots(a))
    requires !Checked(a.early, ResultKind).Found? && DamageOf(Checked(a.early, ResultKind)).None?
    requires LastIssue(None, MiddleSlots(a)).None? && patience >= 6
    modifies r
    ensures v == if patience < ChecksMade(a, ask, invocation, now) then Stopped else Owed(a, ask, invocation, now)
    ensures Condemned(v) ==> Contradictory(a) || (ask && invocation.ForeignIdentity?)
    ensures v != Stopped && Contradictory(a) ==> Condemned(v)
  {
    hide Acceptable, Learn, Consonant, FullyPublished, Fallback, Damaged, FoundIn, Folded, HasEnd, Without, LastIssue,
         LastTrouble, Lapsed, VerdictOf, MiddleSlots;
    var late := Checked(a.late, ResultKind);
    ghost var slots := MiddleSlots(a);
    OneStartRead(a);
    FoundStep(slots, late);
    TroubleKind(slots);
    FoldSSM(FoundIn(slots));
    FoldLapsed(FoundIn(slots), now);
    var asked: Option<Invocation> := None;
    if ask && r.known.binding.Some? && r.known.ssm.Some? && !PastRetention(r.known, now) {
      if invocation.ForeignIdentity? {
        return Corrupt;
      }
      if patience < 7 {
        return Stopped;
      }
      asked := Some(invocation);
    }
    if late.Found? {
      FoldStep(FoundIn(slots), late.observed);
      NeverStopped(late.observed.record, now);
    } else {
      FallbackOwed(slots, asked, now);
      NotStopped(slots, if asked.Some? then asked.value else NoAnswer, now);
    }
    v := ReadLate(r, late, trouble, asked, now, patience - (if asked.Some? then 7 else 6));
  }

  lemma NotStopped(slots: seq<Reading>, answer: Invocation, now: int)
    ensures Without(slots, answer, now) != Stopped && !Condemned(Without(slots, answer, now))
  {
    TroubleKind(slots);
  }

  lemma FirstAccepted(o: Observed)
    requires o.record.Result?
    ensures Acceptable(NOTHING, o)
  {
  }

  lemma LatestKeeps(slots: seq<Reading>, r: Reading)
    requires LatestLast(FoundIn(slots))
             && (r.Found? && r.observed.record.Started? ==> forall x | x in FoundIn(slots) :: !x.record.Started?)
    ensures LatestLast(FoundIn(slots + [r]))
    ensures (forall x | x in FoundIn(slots) :: !x.record.Started?) && !(r.Found? && r.observed.record.Started?)
            ==> forall x | x in FoundIn(slots + [r]) :: !x.record.Started?
  {
    FoundStep(slots, r);
    var xs := FoundIn(slots);
    if r.Found? {
      assert (xs + [r.observed])[..|xs|] == xs;
    }
  }

  lemma LatestSlots(a: Answers)
    ensures LatestLast(FoundIn(MiddleSlots(a) + [Checked(a.late, ResultKind)]))
  {
    var s0, s1, s2, s3, s4 := Checked(a.outcome, OutcomeKind), Checked(a.started, StartedKind),
        Checked(a.acknowledgement, AcknowledgementKind),
                              Checked(a.request, RequestKind), Checked(a.late, ResultKind);
    hide Checked, LatestLast, FoundIn;
    KindsOf(a);
    NothingFound();
    LatestKeeps([], s0);
    LatestKeeps([] + [s0], s1);
    LatestKeeps([] + [s0] + [s1], s2);
    LatestKeeps([] + [s0] + [s1] + [s2], s3);
    LatestKeeps([] + [s0] + [s1] + [s2] + [s3], s4);
    assert [] + [s0] + [s1] + [s2] + [s3] == MiddleSlots(a);
  }

  lemma NothingFound()
    ensures LatestLast(FoundIn([])) && FoundIn([]) == []
  {
  }

  lemma KindsOf(a: Answers)
    ensures forall r | r in [Checked(a.outcome, OutcomeKind), Checked(a.acknowledgement, AcknowledgementKind),
                             Checked(a.request, RequestKind),
                             Checked(a.late, ResultKind)] && r.Found? :: !r.observed.record.Started?
  {
  }

  /** A recovery reads the started record once, so no start can hide another and its fold decides exactly. */
  lemma OneStartRead(a: Answers)
    ensures var xs := FoundIn(MiddleSlots(a) + [Checked(a.late, ResultKind)]);
            && (Folded(xs).invalid <==> !Consonant(Elems(xs)))
            && (Folded(FoundIn(MiddleSlots(a))).invalid ==> !Consonant(Elems(xs)))
  {
    hide Consonant, Acceptable, Learn, MiddleSlots, Checked, LatestLast;
    LatestSlots(a);
    FoundStep(MiddleSlots(a), Checked(a.late, ResultKind));
    FoldDecides(FoundIn(MiddleSlots(a) + [Checked(a.late, ResultKind)]));
    if Folded(FoundIn(MiddleSlots(a))).invalid {
      if Consonant(Elems(FoundIn(MiddleSlots(a)))) {
        NeverReportedWrongly(FoundIn(MiddleSlots(a)));
      }
      ConsonantSubset(Elems(FoundIn(MiddleSlots(a))), Elems(FoundIn(MiddleSlots(a) + [Checked(a.late, ResultKind)])));
    }
  }

  lemma ConsonantSubset(xs: set<Observed>, ys: set<Observed>)
    requires xs <= ys
    ensures Consonant(ys) ==> Consonant(xs)
  {
    hide Usable, Agree;
  }
}
