/** What one batch of the settlement observation loop asks, records and releases, attempt by attempt. */
module SettlementBatches {
  import opened Prelude
  import opened PaymentAttempts
  import opened SettlementLoop
  import opened SettlementSweep

  datatype Written = Written(attempt: Leased, observation: Observation)

  // ---- What a trace shows. ----

  function Questions(trace: seq<Event>): seq<Leased> {
    if trace == [] then []
    else Questions(Front(trace)) + (if Last(trace).Asked? then [Last(trace).attempt] else [])
  }

  function Records(trace: seq<Event>): seq<Written> {
    if trace == [] then []
    else Records(Front(trace)) + (if Last(trace).Wrote? then [Written(Last(trace).attempt, Last(trace).observation)] else [])
  }

  function Releases(trace: seq<Event>): seq<Leased> {
    if trace == [] then []
    else Releases(Front(trace)) + (if Last(trace).Released? then [Last(trace).attempt] else [])
  }

  // ---- What the leases and the answers call for. ----

  /** No deadline fires and no abort arrives during the turn of this attempt. */
  predicate Uncut(x: AttemptScript) {
    !x.deadlineBefore && !x.deadlineDuring && !x.abortDuring && !x.abortBeforeRecord && !x.abortDuringWrite
  }

  /** The lease is absent or ends after the instant of the attempt's turn. */
  predicate Running(a: Leased, now: int) { a.leaseUntil.None? || now < a.leaseUntil.value }

  /** The attempt is to be asked about: its binding parses and its lease is running. */
  predicate Due(lane: Lane, a: Leased, now: int) { lane.parse(a.raw).Some? && Running(a, now) }

  /** The observation a positive answer in time calls for. */
  function Positive(lane: Lane, a: Leased, x: AttemptScript): Option<Observation>
    requires lane.parse(a.raw).Some?
  {
    if x.timedOut || x.lookup.None? then None
    else
      match lane.classify(lane.parse(a.raw).value, x.now, x.lookup.value)
      case Some(CommittedExposure(transfer, tx)) => Some(Observation(Committed, transfer, Completed, Some(tx)))
      case Some(PendingExposure(transfer, gateway, tx)) => Some(Observation(Pending, transfer, gateway, tx))
      case _ => None
  }

  /** What the first `n` attempts of a batch call for: questions, records, releases and confirmed records. */
  datatype Plan = Plan(questions: seq<Leased>, records: seq<Written>, releases: seq<Leased>, confirmed: nat)

  function TurnPlan(lane: Lane, a: Leased, x: AttemptScript): Plan {
    if !Running(a, x.now) then Plan([], [], [], 0)
    else if !Due(lane, a, x.now) then Plan([], [], [a], 0)
    else
      match Positive(lane, a, x)
      case None => Plan([a], [], [a], 0)
      case Some(o) => Plan([a], [Written(a, o)], [], if x.reply.Applied? then 1 else 0)
  }

  function Then(p: Plan, q: Plan): Plan {
    Plan(p.questions + q.questions, p.records + q.records, p.releases + q.releases, p.confirmed + q.confirmed)
  }

  function BatchPlan(lane: Lane, leased: seq<Leased>, xs: seq<AttemptScript>, n: nat): Plan
    requires n <= |leased| && n <= |xs|
  {
    if n == 0 then Plan([], [], [], 0) else Then(BatchPlan(lane, leased, xs, n - 1), TurnPlan(lane, leased[n - 1], xs[n - 1]))
  }

  /** What a batch has done so far. */
  function Done(w: Work): Plan { Plan(Questions(w.trace), Records(w.trace), Releases(w.trace), w.recorded) }

  // ---- One turn. ----

  lemma Shown(trace: seq<Event>, e: Event)
    ensures Questions(trace + [e]) == Questions(trace) + (if e.Asked? then [e.attempt] else [])
    ensures Records(trace + [e]) == Records(trace) + (if e.Wrote? then [Written(e.attempt, e.observation)] else [])
    ensures Releases(trace + [e]) == Releases(trace) + (if e.Released? then [e.attempt] else [])
  {
    Snoc(trace, e);
  }

  lemma RequestsShow(trace: seq<Event>, stop: bool)
    ensures var after := trace + Requests(stop, false);
      Questions(after) == Questions(trace) && Records(after) == Records(trace) && Releases(after) == Releases(trace)
  {
    if stop {
      Shown(trace, StopRequested);
      assert trace + Requests(stop, false) == trace + [StopRequested];
    } else {
      assert trace + Requests(stop, false) == trace;
    }
  }

  lemma EventShows(trace: seq<Event>, e: Event, stop: bool)
    ensures var after := trace + [e] + Requests(stop, false);
      && Questions(after) == Questions(trace) + (if e.Asked? then [e.attempt] else [])
      && Records(after) == Records(trace) + (if e.Wrote? then [Written(e.attempt, e.observation)] else [])
      && Releases(after) == Releases(trace) + (if e.Released? then [e.attempt] else [])
  {
    Shown(trace, e);
    RequestsShow(trace + [e], stop);
  }

  /** Nothing has cut the batch off. */
  predicate Going(w: Work) { !w.over && !w.deadline && !w.aborted }

  lemma ReleaseDone(w: Work, a: Leased, x: AttemptScript)
    requires Going(w) && Uncut(x)
    ensures Going(Release(w, a, x)) && Done(Release(w, a, x)) == Then(Done(w), Plan([], [], [a], 0))
  {
    EventShows(w.trace, Released(a), x.stopDuringWrite);
  }

  lemma QuestionDone(w: Work, a: Leased, b: Binding, x: AttemptScript)
    requires Going(w) && Uncut(x)
    ensures Going(Questioned(w, a, b, x)) && Done(Questioned(w, a, b, x)) == Then(Done(w), Plan([a], [], [], 0))
  {
    EventShows(w.trace, Asked(a, b, x.now, x.lookup, x.Cut()), x.stopDuring);
  }

  lemma RecordDone(w: Work, a: Leased, o: Observation, x: AttemptScript)
    requires Going(w) && Uncut(x)
    ensures Going(Recording(w, a, o, x))
    ensures Done(Recording(w, a, o, x)) == Then(Done(w), Plan([], [Written(a, o)], [], if x.reply.Applied? then 1 else 0))
  {
    EventShows(w.trace, Wrote(a, o, x.reply), x.stopDuringWrite);
  }

  lemma PositiveIff(lane: Lane, a: Leased, x: AttemptScript)
    requires lane.parse(a.raw).Some? && Uncut(x)
    ensures var d := AnswerOf(lane, lane.parse(a.raw).value, x.now, x.lookup, x.Cut());
      if Positive(lane, a, x).Some? then d == Record(Positive(lane, a, x).value) else d.Hold?
  {}

  lemma ThenJoins(p: Plan, q: Plan, r: Plan)
    ensures Then(Then(p, q), r) == Then(p, Then(q, r)) && Then(p, Plan([], [], [], 0)) == p
  {}

  lemma AttemptDone(lane: Lane, w: Work, a: Leased, x: AttemptScript)
    requires Going(w) && Uncut(x) && Running(a, x.now)
    ensures Going(ProcessAttempt(lane, w, a, x)) && Done(ProcessAttempt(lane, w, a, x)) == Then(Done(w), TurnPlan(lane, a, x))
  {
    match lane.parse(a.raw)
    case None => ReleaseDone(w, a, x);
    case Some(b) =>
      var w1 := Questioned(w, a, b, x);
      QuestionDone(w, a, b, x);
      PositiveIff(lane, a, x);
      match Positive(lane, a, x) {
        case None =>
          ReleaseDone(w1, a, x);
          ThenJoins(Done(w), Plan([a], [], [], 0), Plan([], [], [a], 0));
        case Some(o) =>
          RecordDone(w1, a, o, x);
          ThenJoins(Done(w), Plan([a], [], [], 0), Plan([], [Written(a, o)], [], if x.reply.Applied? then 1 else 0));
      }
  }

  lemma TurnDone(lane: Lane, w: Work, a: Leased, x: AttemptScript)
    requires Going(w) && Uncut(x)
    ensures Going(BatchTurn(lane, w, a, x)) && Done(BatchTurn(lane, w, a, x)) == Then(Done(w), TurnPlan(lane, a, x))
  {
    assert w.(deadline := w.deadline || x.deadlineBefore) == w;
    if Running(a, x.now) { AttemptDone(lane, w, a, x); } else { ThenJoins(Done(w), Done(w), Done(w)); }
  }

  /**
   * A batch that nothing cuts off asks, in order, about exactly the attempts whose binding parses and whose lease
   * is running at their turn; records exactly the positive answers, as they classify; releases exactly the other
   * questions and the unreadable attempts; and counts exactly the applied records.
   */
  lemma {:induction false} BatchDoesItsPlan(lane: Lane, w: Work, leased: seq<Leased>, xs: seq<AttemptScript>, n: nat)
    requires n <= |leased| && n <= |xs| && Going(w) && forall i :: 0 <= i < n ==> Uncut(xs[i])
    ensures var v := Batch(lane, w, leased, xs, n);
      && Going(v)
      && Questions(v.trace) == Questions(w.trace) + BatchPlan(lane, leased, xs, n).questions
      && Records(v.trace) == Records(w.trace) + BatchPlan(lane, leased, xs, n).records
      && Releases(v.trace) == Releases(w.trace) + BatchPlan(lane, leased, xs, n).releases
      && v.recorded == w.recorded + BatchPlan(lane, leased, xs, n).confirmed
  {
    if n == 0 {
      ThenJoins(Done(w), Done(w), Done(w));
    } else {
      BatchDoesItsPlan(lane, w, leased, xs, n - 1);
      var v := Batch(lane, w, leased, xs, n - 1);
      TurnDone(lane, v, leased[n - 1], xs[n - 1]);
      ThenJoins(Done(w), BatchPlan(lane, leased, xs, n - 1), TurnPlan(lane, leased[n - 1], xs[n - 1]));
    }
  }

  /** So an attempt listed once is asked about exactly if it is due, and its applied positive answer is counted. */
  lemma {:induction false} QuestionsAreTheDue(lane: Lane, leased: seq<Leased>, xs: seq<AttemptScript>, n: nat, a: Leased)
    requires n <= |leased| && n <= |xs|
    ensures a in BatchPlan(lane, leased, xs, n).questions <==> exists i :: 0 <= i < n && leased[i] == a && Due(lane, a, xs[i].now)
  {
    if n > 0 {
      QuestionsAreTheDue(lane, leased, xs, n - 1, a);
      var due := Due(lane, a, xs[n - 1].now);
      assert leased[n - 1] == a && due ==> exists i :: 0 <= i < n && leased[i] == a && Due(lane, a, xs[i].now);
    }
  }

  /** One attempt under a running lease, answered positively and recorded, counts as one. */
  lemma LeasedAttemptCounts(lane: Lane, a: Leased, x: AttemptScript, before: seq<Event>)
    requires Due(lane, a, x.now) && Uncut(x) && Positive(lane, a, x).Some? && x.reply.Applied?
    ensures var v := Batch(lane, Work(false, false, false, false, 0, before), [a], [x], 1);
      && v.recorded == 1 && Questions(v.trace) == Questions(before) + [a]
      && Records(v.trace) == Records(before) + [Written(a, Positive(lane, a, x).value)]
  {
    BatchDoesItsPlan(lane, Work(false, false, false, false, 0, before), [a], [x], 1);
    assert BatchPlan(lane, [a], [x], 1) == Then(BatchPlan(lane, [a], [x], 0), TurnPlan(lane, a, x));
  }

  // ---- What cuts it off. ----

  /** From the turn at which the deadline has fired or an abort has arrived, the batch does nothing more. */
  lemma {:induction false} CutBatchStops(lane: Lane, w: Work, leased: seq<Leased>, xs: seq<AttemptScript>, i: nat, n: nat)
    requires i <= n <= |leased|
    requires var v := Batch(lane, w, leased, xs, i); v.over || v.deadline || v.aborted || ScriptAt(xs, i).deadlineBefore
    ensures Batch(lane, w, leased, xs, n).trace == Batch(lane, w, leased, xs, i).trace
    ensures Batch(lane, w, leased, xs, n).recorded == Batch(lane, w, leased, xs, i).recorded
    decreases n - i
  {
    if i < n {
      CutBatchStops(lane, w, leased, xs, i, n - 1);
      StaysCut(lane, w, leased, xs, i, n);
    }
  }

  lemma {:induction false} StaysCut(lane: Lane, w: Work, leased: seq<Leased>, xs: seq<AttemptScript>, i: nat, n: nat)
    requires i < n <= |leased|
    requires var v := Batch(lane, w, leased, xs, i); v.over || v.deadline || v.aborted || ScriptAt(xs, i).deadlineBefore
    ensures Batch(lane, w, leased, xs, n).over
    ensures Batch(lane, w, leased, xs, n).trace == Batch(lane, w, leased, xs, n - 1).trace
    ensures Batch(lane, w, leased, xs, n).recorded == Batch(lane, w, leased, xs, n - 1).recorded
    decreases n - i
  {
    if i < n - 1 { StaysCut(lane, w, leased, xs, i, n - 1); }
  }

  /** A question during which the deadline fires or an abort arrives is the last one. */
  lemma QuestionCutOff(lane: Lane, w: Work, leased: seq<Leased>, xs: seq<AttemptScript>, i: nat, n: nat)
    requires i < n <= |leased| && i < |xs| && Going(Batch(lane, w, leased, xs, i)) && !xs[i].deadlineBefore
    requires Due(lane, leased[i], xs[i].now) && (xs[i].deadlineDuring || xs[i].abortDuring)
    ensures Questions(Batch(lane, w, leased, xs, n).trace) == Questions(Batch(lane, w, leased, xs, i + 1).trace)
    ensures Records(Batch(lane, w, leased, xs, n).trace) == Records(Batch(lane, w, leased, xs, i + 1).trace)
  {
    CutBatchStops(lane, w, leased, xs, i + 1, n);
  }
}
