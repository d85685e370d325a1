/** What the settlement observation loop guarantees over every script of its environment. */
module SettlementSweep {
  import opened Prelude
  import opened PaymentAttempts
  import opened SettlementLoop
  import Backoff

  function Front<T>(s: seq<T>): seq<T> requires s != [] { s[..|s| - 1] }
  function Last<T>(s: seq<T>): T requires s != [] { s[|s| - 1] }

  /** Waits since a batch last advanced something. */
  function WaitsSinceReset(trace: seq<Event>): nat {
    if trace == [] then 0
    else
      match Last(trace)
      case Waited(_) => WaitsSinceReset(Front(trace)) + 1
      case BatchDone(n) => if n > 0 then 0 else WaitsSinceReset(Front(trace))
      case _ => WaitsSinceReset(Front(trace))
  }

  /** Failed claims since the last successful one. */
  function TrailingFailures(trace: seq<Event>): nat {
    if trace == [] then 0
    else
      match Last(trace)
      case ClaimFailed => TrailingFailures(Front(trace)) + 1
      case ClaimedSome(_) => 0
      case _ => TrailingFailures(Front(trace))
  }

  /** Observations the store confirmed since the last successful claim. */
  function AppliedSinceClaim(trace: seq<Event>): nat {
    if trace == [] then 0
    else
      match Last(trace)
      case ClaimedSome(_) => 0
      case Wrote(_, _, reply) => AppliedSinceClaim(Front(trace)) + (if reply.Applied? then 1 else 0)
      case _ => AppliedSinceClaim(Front(trace))
  }

  predicate IsRequest(e: Event) { e.StopRequested? || e.AbortRequested? }

  /** The question just asked: nothing but requests has come after it. */
  function Open(trace: seq<Event>): (q: Option<Event>)
    ensures q.Some? ==> q.value.Asked?
  {
    if trace == [] then None
    else if IsRequest(Last(trace)) then Open(Front(trace))
    else if Last(trace).Asked? then Some(Last(trace))
    else None
  }

  /** The question about `a` was answered, unaborted, by a classification that decides `o`. */
  predicate Justifies(lane: Lane, e: Event, a: Leased, o: Observation) {
    && e.Asked? && e.attempt == a && lane.parse(a.raw) == Some(e.binding) && !e.aborted && e.lookup.Some?
    && var exposure := lane.classify(e.binding, e.now, e.lookup.value);
       exposure.Some? && Decide(exposure.value) == Record(o)
  }

  /** The question came to a hold. */
  predicate Held(lane: Lane, e: Event) {
    e.Asked? && lane.parse(e.attempt.raw) == Some(e.binding) && AnswerOf(lane, e.binding, e.now, e.lookup, e.aborted).Hold?
  }

  predicate HoldOpen(lane: Lane, trace: seq<Event>) { Open(trace).Some? && Held(lane, Open(trace).value) }

  ghost predicate EventOk(lane: Lane, c: Config, before: seq<Event>, e: Event) {
    && (HoldOpen(lane, before) ==> IsRequest(e) || e == Released(Open(before).value.attempt))
    && match e
    case Wrote(a, o, _) => Open(before).Some? && Justifies(lane, Open(before).value, a, o)
    case Released(a) =>
      lane.parse(a.raw).None? || (HoldOpen(lane, before) && Open(before).value.attempt == a)
    case BatchDone(n) => n == AppliedSinceClaim(before)
    case Waited(ms) => ms == Min(c.poll * Backoff.Pow2(WaitsSinceReset(before)), c.idleMax)
    case _ => true
  }

  ghost predicate TraceOk(lane: Lane, c: Config, trace: seq<Event>) {
    trace == [] || (TraceOk(lane, c, Front(trace)) && EventOk(lane, c, Front(trace), Last(trace)))
  }

  ghost predicate Inv(lane: Lane, c: Config, s: St) {
    && TraceOk(lane, c, s.trace) && !HoldOpen(lane, s.trace)
    && s.backoff == Min(c.poll * Backoff.Pow2(WaitsSinceReset(s.trace)), c.idleMax)
    && s.errors == TrailingFailures(s.trace)
    && s.errors <= c.maxErrors && (s.errors == c.maxErrors ==> s.halted)
  }

  ghost predicate WorkInv(lane: Lane, c: Config, start: seq<Event>, w: Work) {
    && TraceOk(lane, c, w.trace) && w.recorded == AppliedSinceClaim(w.trace)
    && WaitsSinceReset(w.trace) == WaitsSinceReset(start) && TrailingFailures(w.trace) == TrailingFailures(start)
  }

  lemma Snoc(trace: seq<Event>, e: Event)
    ensures trace + [e] != [] && Front(trace + [e]) == trace && Last(trace + [e]) == e
  {}

  lemma RequestKeeps(lane: Lane, c: Config, trace: seq<Event>, e: Event)
    requires TraceOk(lane, c, trace) && IsRequest(e)
    ensures var after := trace + [e];
      && TraceOk(lane, c, after) && Open(after) == Open(trace) && AppliedSinceClaim(after) == AppliedSinceClaim(trace)
      && WaitsSinceReset(after) == WaitsSinceReset(trace) && TrailingFailures(after) == TrailingFailures(trace)
  {
    Snoc(trace, e);
  }

  /** Requests change no count and leave an open question open. */
  lemma RequestsKeep(lane: Lane, c: Config, trace: seq<Event>, stop: bool, abort: bool)
    requires TraceOk(lane, c, trace)
    ensures var after := trace + Requests(stop, abort);
      && TraceOk(lane, c, after) && Open(after) == Open(trace) && AppliedSinceClaim(after) == AppliedSinceClaim(trace)
      && WaitsSinceReset(after) == WaitsSinceReset(trace) && TrailingFailures(after) == TrailingFailures(trace)
  {
    var after := trace + Requests(stop, abort);
    if stop && abort {
      RequestKeeps(lane, c, trace, StopRequested);
      RequestKeeps(lane, c, trace + [StopRequested], AbortRequested);
      assert after == trace + [StopRequested] + [AbortRequested];
    } else if stop {
      RequestKeeps(lane, c, trace, StopRequested);
      assert after == trace + [StopRequested];
    } else if abort {
      RequestKeeps(lane, c, trace, AbortRequested);
      assert after == trace + [AbortRequested];
    } else {
      assert after == trace;
    }
  }

  /** One event that fits, and the requests after it. */
  lemma EventKept(lane: Lane, c: Config, trace: seq<Event>, e: Event, stop: bool, abort: bool)
    requires TraceOk(lane, c, trace) && EventOk(lane, c, trace, e)
    ensures var after := trace + [e] + Requests(stop, abort);
      && TraceOk(lane, c, after) && Open(after) == Open(trace + [e])
      && AppliedSinceClaim(after) == AppliedSinceClaim(trace + [e])
      && WaitsSinceReset(after) == WaitsSinceReset(trace + [e]) && TrailingFailures(after) == TrailingFailures(trace + [e])
  {
    Snoc(trace, e);
    RequestsKeep(lane, c, trace + [e], stop, abort);
  }

  lemma ReleaseInv(lane: Lane, c: Config, start: seq<Event>, w: Work, a: Leased, x: AttemptScript)
    requires WorkInv(lane, c, start, w) && EventOk(lane, c, w.trace, Released(a))
    ensures WorkInv(lane, c, start, Release(w, a, x)) && !HoldOpen(lane, Release(w, a, x).trace)
  {
    Snoc(w.trace, Released(a));
    EventKept(lane, c, w.trace, Released(a), x.stopDuringWrite, x.abortDuringWrite);
  }

  lemma QuestionedInv(lane: Lane, c: Config, start: seq<Event>, w: Work, a: Leased, b: Binding, x: AttemptScript)
    requires WorkInv(lane, c, start, w) && !HoldOpen(lane, w.trace)
    ensures WorkInv(lane, c, start, Questioned(w, a, b, x))
    ensures Open(Questioned(w, a, b, x).trace) == Some(Asked(a, b, x.now, x.lookup, x.Cut()))
  {
    var q := Asked(a, b, x.now, x.lookup, x.Cut());
    Snoc(w.trace, q);
    EventKept(lane, c, w.trace, q, x.stopDuring, x.abortDuring);
  }

  lemma RecordingInv(lane: Lane, c: Config, start: seq<Event>, w: Work, a: Leased, o: Observation, x: AttemptScript)
    requires WorkInv(lane, c, start, w) && !HoldOpen(lane, w.trace)
    requires Open(w.trace).Some? && Justifies(lane, Open(w.trace).value, a, o)
    ensures WorkInv(lane, c, start, Recording(w, a, o, x)) && !HoldOpen(lane, Recording(w, a, o, x).trace)
  {
    if w.aborted || x.abortBeforeRecord {
      RequestsKeep(lane, c, w.trace, false, x.abortBeforeRecord);
    } else {
      Snoc(w.trace, Wrote(a, o, x.reply));
      EventKept(lane, c, w.trace, Wrote(a, o, x.reply), x.stopDuringWrite, x.abortDuringWrite);
    }
  }

  lemma AttemptInv(lane: Lane, c: Config, start: seq<Event>, w: Work, a: Leased, x: AttemptScript)
    requires WorkInv(lane, c, start, w) && !HoldOpen(lane, w.trace)
    ensures WorkInv(lane, c, start, ProcessAttempt(lane, w, a, x)) && !HoldOpen(lane, ProcessAttempt(lane, w, a, x).trace)
  {
    match lane.parse(a.raw)
    case None => ReleaseInv(lane, c, start, w, a, x);
    case Some(b) =>
      var w1 := Questioned(w, a, b, x);
      QuestionedInv(lane, c, start, w, a, b, x);
      match AnswerOf(lane, b, x.now, x.lookup, x.Cut())
      case Hold(_) => ReleaseInv(lane, c, start, w1, a, x);
      case Record(o) => RecordingInv(lane, c, start, w1, a, o, x);
  }

  lemma {:induction false} BatchInv(lane: Lane, c: Config, w: Work, leased: seq<Leased>, xs: seq<AttemptScript>, n: nat)
    requires n <= |leased| && WorkInv(lane, c, w.trace, w) && !HoldOpen(lane, w.trace)
    ensures WorkInv(lane, c, w.trace, Batch(lane, w, leased, xs, n)) && !HoldOpen(lane, Batch(lane, w, leased, xs, n).trace)
  {
    if n > 0 {
      BatchInv(lane, c, w, leased, xs, n - 1);
      var v := Batch(lane, w, leased, xs, n - 1);
      AttemptInv(lane, c, w.trace, v.(deadline := v.deadline || ScriptAt(xs, n - 1).deadlineBefore), leased[n - 1], ScriptAt(xs, n - 1));
    }
  }

  lemma WaitInv(lane: Lane, c: Config, s: St, t: Turn)
    requires c.Valid() && Inv(lane, c, s)
    ensures Inv(lane, c, Wait(c, s, t))
  {
    var k := WaitsSinceReset(s.trace);
    Snoc(s.trace, Waited(s.backoff));
    EventKept(lane, c, s.trace, Waited(s.backoff), t.stopDuringWait, t.abortDuringWait);
    Backoff.DelayClosedForm(c.poll, c.idleMax, k);
    Backoff.DelayClosedForm(c.poll, c.idleMax, k + 1);
  }

  lemma ClaimedInv(lane: Lane, c: Config, s: St, leased: seq<Leased>, t: Turn)
    requires c.Valid() && Inv(lane, c, s)
    ensures Inv(lane, c, ClaimedTurn(lane, c, s, leased, t))
  {
    var s1 := s.(errors := 0, trace := s.trace + [ClaimedSome(leased)]);
    Snoc(s.trace, ClaimedSome(leased));
    assert Inv(lane, c, s1);
    if !s1.stop {
      SweptInv(lane, c, s1, FreshOnly(leased, s1.processed), t);
    }
  }

  lemma SweptInv(lane: Lane, c: Config, s: St, found: seq<Leased>, t: Turn)
    requires c.Valid() && Inv(lane, c, s) && AppliedSinceClaim(s.trace) == 0
    ensures Inv(lane, c, EmptyTurn(c, s, t)) && Inv(lane, c, BatchedTurn(lane, c, s, found, t))
  {
    Snoc(s.trace, Cleared);
    WaitInv(lane, c, s.(processed := {}, trace := s.trace + [Cleared]), t);
    BatchedInv(lane, c, s, found, t);
  }

  lemma BatchedInv(lane: Lane, c: Config, s: St, found: seq<Leased>, t: Turn)
    requires c.Valid() && Inv(lane, c, s) && AppliedSinceClaim(s.trace) == 0
    ensures Inv(lane, c, BatchedTurn(lane, c, s, found, t))
  {
    var start := Work(s.stop, s.aborted, false, false, 0, s.trace + [Batching(found)]);
    Snoc(s.trace, Batching(found));
    BatchInv(lane, c, start, found, t.attempts, |found|);
    var w := Batch(lane, start, found, t.attempts, |found|);
    BatchEndInv(lane, c, s, start.trace, w);
    if w.recorded == 0 {
      WaitInv(lane, c, s.(processed := s.processed + Ids(found), stop := w.stop, aborted := w.aborted,
                          trace := w.trace + [BatchDone(w.recorded)]), t);
    }
  }

  /** The counts after the end of a batch that began with `start`. */
  lemma BatchEndInv(lane: Lane, c: Config, s: St, start: seq<Event>, w: Work)
    requires c.Valid() && Inv(lane, c, s) && WorkInv(lane, c, start, w) && !HoldOpen(lane, w.trace)
    requires WaitsSinceReset(start) == WaitsSinceReset(s.trace) && TrailingFailures(start) == TrailingFailures(s.trace)
    ensures var after := w.trace + [BatchDone(w.recorded)];
      && TraceOk(lane, c, after) && !HoldOpen(lane, after) && TrailingFailures(after) == s.errors
      && (if w.recorded == 0 then WaitsSinceReset(after) == WaitsSinceReset(s.trace)
          else c.poll == Min(c.poll * Backoff.Pow2(WaitsSinceReset(after)), c.idleMax))
  {
    Snoc(w.trace, BatchDone(w.recorded));
    assert Backoff.Pow2(0) == 1;
  }

  lemma PolledInv(lane: Lane, c: Config, s: St, t: Turn)
    requires Inv(lane, c, s)
    ensures Inv(lane, c, Polled(s, t))
  {
    Snoc(s.trace, Claiming);
    EventKept(lane, c, s.trace, Claiming, t.stopDuringClaim, t.abortDuringClaim);
  }

  lemma FailedInv(lane: Lane, c: Config, s: St, t: Turn)
    requires c.Valid() && Inv(lane, c, s) && !s.halted
    ensures Inv(lane, c, FailedTurn(c, s, t))
  {
    var s1 := s.(errors := s.errors + 1, trace := s.trace + [ClaimFailed]);
    Snoc(s.trace, ClaimFailed);
    if s1.errors < c.maxErrors { WaitInv(lane, c, s1, t); }
  }

  lemma TurnInv(lane: Lane, c: Config, s: St, t: Turn)
    requires c.Valid() && Inv(lane, c, s)
    ensures Inv(lane, c, LoopTurn(lane, c, s, t))
  {
    if !s.halted && !s.stop {
      PolledInv(lane, c, s, t);
      match t.claim
      case ClaimFails => FailedInv(lane, c, Polled(s, t), t);
      case Claims(leased) => ClaimedInv(lane, c, Polled(s, t), leased, t);
    }
  }

  lemma {:induction false} RunInv(lane: Lane, c: Config, turns: seq<Turn>)
    requires c.Valid()
    ensures Inv(lane, c, Run(lane, c, turns))
  {
    if turns == [] {
      assert Backoff.Pow2(0) == 1;
    } else {
      RunInv(lane, c, Front(turns));
      TurnInv(lane, c, Run(lane, c, Front(turns)), Last(turns));
    }
  }

  lemma {:induction false} EventAt(lane: Lane, c: Config, trace: seq<Event>, i: nat)
    requires TraceOk(lane, c, trace) && i < |trace|
    ensures EventOk(lane, c, trace[..i], trace[i])
    decreases |trace|
  {
    if i == |trace| - 1 {
      assert trace[..i] == Front(trace);
    } else {
      EventAt(lane, c, Front(trace), i);
      assert Front(trace)[..i] == trace[..i];
    }
  }

  /** The question at `i` is still open at the end of the trace. */
  ghost predicate OpenSince(trace: seq<Event>, i: nat) {
    && i < |trace| && trace[i].Asked? && Open(trace) == Some(trace[i])
    && forall m :: i < m < |trace| ==> IsRequest(trace[m])
  }

  lemma {:induction false} OpenWasAsked(trace: seq<Event>) returns (i: nat)
    requires Open(trace).Some?
    ensures OpenSince(trace, i)
  {
    if IsRequest(Last(trace)) {
      i := OpenWasAsked(Front(trace));
    } else {
      i := |trace| - 1;
    }
  }

  /**
   * Every durable write is the decision of an unaborted positive classification of the binding rebuilt
   * from that same leased attempt, with at most stop requests between the question and the write; it is
   * in the recorder's input.
   */
  lemma EveryWriteIsJustified(lane: Lane, c: Config, turns: seq<Turn>, i: nat)
    requires c.Valid() && LaneOk(lane) && i < |Run(lane, c, turns).trace| && Run(lane, c, turns).trace[i].Wrote?
    ensures var trace := Run(lane, c, turns).trace;
      && Recordable(trace[i].observation)
      && exists q :: 0 <= q < i && Justifies(lane, trace[q], trace[i].attempt, trace[i].observation)
                     && forall m :: q < m < i ==> trace[m].StopRequested?
  {
    var trace := Run(lane, c, turns).trace;
    RunInv(lane, c, turns);
    EventAt(lane, c, trace, i);
    var q := OpenWasAsked(trace[..i]);
    assert trace[..i][q] == trace[q];
    forall m | q < m < i ensures trace[m].StopRequested? {
      assert trace[..i][m] == trace[m];
      RequestsAreObeyed(lane, c, turns, m, i);
    }
    DecisionsArePositive(lane.classify(trace[q].binding, trace[q].now, trace[q].lookup.value).value);
  }

  /** The question at `i` is answered at `j` by the release of its lease, with only requests in between. */
  ghost predicate ReleasedAt(trace: seq<Event>, i: nat, j: nat) {
    && i < j < |trace| && trace[i].Asked? && trace[j] == Released(trace[i].attempt)
    && forall m :: i < m < j ==> IsRequest(trace[m])
  }

  ghost predicate ReleasedOrOpen(trace: seq<Event>, i: nat) { OpenSince(trace, i) || exists j :: ReleasedAt(trace, i, j) }

  lemma {:induction false} HeldIsReleased(lane: Lane, c: Config, trace: seq<Event>, i: nat)
    requires TraceOk(lane, c, trace) && i < |trace| && Held(lane, trace[i])
    ensures ReleasedOrOpen(trace, i)
    decreases |trace|
  {
    if i < |trace| - 1 {
      var front := Front(trace);
      HeldIsReleased(lane, c, front, i);
      if OpenSince(front, i) {
        assert trace[i] == front[i] && EventOk(lane, c, front, Last(trace));
        if !IsRequest(Last(trace)) { assert ReleasedAt(trace, i, |trace| - 1); }
      } else {
        var j :| ReleasedAt(front, i, j);
        assert ReleasedAt(trace, i, j);
      }
    }
  }

  /** A question that came to a hold is followed by the release of its lease; only requests come before it. */
  lemma HoldsOnlyRelease(lane: Lane, c: Config, turns: seq<Turn>, i: nat)
    requires c.Valid() && i < |Run(lane, c, turns).trace| && Held(lane, Run(lane, c, turns).trace[i])
    ensures exists j :: ReleasedAt(Run(lane, c, turns).trace, i, j)
  {
    RunInv(lane, c, turns);
    HeldIsReleased(lane, c, Run(lane, c, turns).trace, i);
  }

  /** Each batch returns the number of its confirmed recordings. */
  lemma BatchCountsRecordings(lane: Lane, c: Config, turns: seq<Turn>, i: nat)
    requires c.Valid() && i < |Run(lane, c, turns).trace| && Run(lane, c, turns).trace[i].BatchDone?
    ensures Run(lane, c, turns).trace[i].recorded == AppliedSinceClaim(Run(lane, c, turns).trace[..i])
  {
    RunInv(lane, c, turns);
    EventAt(lane, c, Run(lane, c, turns).trace, i);
  }

  /** Every wait is the poll interval doubled once per wait since the last advance, capped. */
  lemma WaitsAreCappedDoublings(lane: Lane, c: Config, turns: seq<Turn>, i: nat)
    requires c.Valid() && i < |Run(lane, c, turns).trace| && Run(lane, c, turns).trace[i].Waited?
    ensures var trace := Run(lane, c, turns).trace;
      trace[i].ms == Min(c.poll * Backoff.Pow2(WaitsSinceReset(trace[..i])), c.idleMax)
  {
    RunInv(lane, c, turns);
    EventAt(lane, c, Run(lane, c, turns).trace, i);
  }

  /** The error counter is the trailing run of failed claims, and the loop stops exactly when it reaches its bound. */
  lemma FailuresAreBounded(lane: Lane, c: Config, turns: seq<Turn>)
    requires c.Valid()
    ensures var s := Run(lane, c, turns);
      s.errors == TrailingFailures(s.trace) <= c.maxErrors && (TrailingFailures(s.trace) == c.maxErrors ==> s.halted)
  {
    RunInv(lane, c, turns);
  }

  // ---- A store that always fails. ----

  predicate AlwaysFails(turns: seq<Turn>) {
    forall i :: 0 <= i < |turns| ==> turns[i].claim.ClaimFails? && !turns[i].stopDuringClaim && !turns[i].stopDuringWait
  }

  function TotalWaited(trace: seq<Event>): nat {
    if trace == [] then 0 else TotalWaited(Front(trace)) + (if Last(trace).Waited? then Last(trace).ms else 0)
  }

  /** The state after `k` failed claims. */
  predicate FailedFor(c: Config, s: St, k: nat)
    requires c.Valid()
  {
    && !s.stop && s.errors == Min(k, c.maxErrors) && (s.halted <==> k >= c.maxErrors)
    && s.backoff == Backoff.DelayAfter(c.poll, c.idleMax, Min(k, c.maxErrors - 1))
    && TotalWaited(s.trace) == Backoff.TotalDelay(c.poll, c.idleMax, Min(k, c.maxErrors - 1))
  }

  lemma NotWaited(trace: seq<Event>, e: Event)
    requires !e.Waited?
    ensures TotalWaited(trace + [e]) == TotalWaited(trace)
  {
    Snoc(trace, e);
  }

  lemma AbortWaitsNot(trace: seq<Event>, abort: bool)
    ensures TotalWaited(trace + Requests(false, abort)) == TotalWaited(trace)
  {
    assert Requests(false, abort) == if abort then [AbortRequested] else [];
    if abort { NotWaited(trace, AbortRequested); } else { assert trace + Requests(false, abort) == trace; }
  }

  lemma FailingWait(c: Config, s: St, t: Turn)
    requires !t.stopDuringWait
    ensures TotalWaited(Wait(c, s, t).trace) == TotalWaited(s.trace) + s.backoff
  {
    Snoc(s.trace, Waited(s.backoff));
    AbortWaitsNot(s.trace + [Waited(s.backoff)], t.abortDuringWait);
  }

  lemma FailingTurn(lane: Lane, c: Config, s: St, t: Turn, k: nat)
    requires c.Valid() && FailedFor(c, s, k) && t.claim.ClaimFails? && !t.stopDuringClaim && !t.stopDuringWait
    ensures FailedFor(c, LoopTurn(lane, c, s, t), k + 1)
  {
    if !s.halted {
      assert LoopTurn(lane, c, s, t) == FailedTurn(c, Polled(s, t), t);
      FailingPoll(s, t);
      FailingClaim(c, Polled(s, t), t);
      NextDelay(c.poll, c.idleMax, k);
    }
  }

  lemma NextDelay(poll: nat, idleMax: nat, k: nat)
    ensures Backoff.DelayAfter(poll, idleMax, k + 1) == Backoff.Doubled(Backoff.DelayAfter(poll, idleMax, k), idleMax)
    ensures Backoff.TotalDelay(poll, idleMax, k + 1) == Backoff.TotalDelay(poll, idleMax, k) + Backoff.DelayAfter(poll, idleMax, k)
  {}

  lemma FailingPoll(s: St, t: Turn)
    requires !t.stopDuringClaim
    ensures TotalWaited(Polled(s, t).trace) == TotalWaited(s.trace)
  {
    NotWaited(s.trace, Claiming);
    AbortWaitsNot(s.trace + [Claiming], t.abortDuringClaim);
  }

  lemma FailingClaim(c: Config, s: St, t: Turn)
    requires !t.stopDuringWait
    ensures var v := FailedTurn(c, s, t);
      && v.errors == s.errors + 1 && v.stop == s.stop
      && (if v.errors >= c.maxErrors then v.halted && v.backoff == s.backoff && TotalWaited(v.trace) == TotalWaited(s.trace)
          else v.halted == s.halted && v.backoff == Backoff.Doubled(s.backoff, c.idleMax)
               && TotalWaited(v.trace) == TotalWaited(s.trace) + s.backoff)
  {
    NotWaited(s.trace, ClaimFailed);
    FailingWait(c, s.(errors := s.errors + 1, trace := s.trace + [ClaimFailed]), t);
  }

  lemma {:induction false} FailingRun(lane: Lane, c: Config, turns: seq<Turn>)
    requires c.Valid() && AlwaysFails(turns)
    ensures FailedFor(c, Run(lane, c, turns), |turns|)
  {
    if turns != [] {
      FailingRun(lane, c, Front(turns));
      FailingTurn(lane, c, Run(lane, c, Front(turns)), Last(turns), |turns| - 1);
    }
  }

  /** An always-failing store costs exactly the first `bound - 1` delays, then the loop stops for good. */
  lemma FailingStoreTotal(lane: Lane, c: Config, turns: seq<Turn>)
    requires c.Valid() && AlwaysFails(turns) && |turns| >= c.maxErrors
    ensures Run(lane, c, turns).halted
    ensures TotalWaited(Run(lane, c, turns).trace) == Backoff.TotalDelay(c.poll, c.idleMax, c.maxErrors - 1)
  {
    FailingRun(lane, c, turns);
  }

  // ---- One question per attempt per sweep. ----

  /** Attempts asked about since `processed` was last cleared. */
  function AskedSinceClear(trace: seq<Event>): set<Key> {
    if trace == [] then {}
    else
      match Last(trace)
      case Cleared => {}
      case Asked(a, _, _, _, _) => AskedSinceClear(Front(trace)) + {a.Id()}
      case _ => AskedSinceClear(Front(trace))
  }

  predicate OncePerSweep(trace: seq<Event>) {
    trace == [] || (OncePerSweep(Front(trace)) && (Last(trace).Asked? ==> Last(trace).attempt.Id() !in AskedSinceClear(Front(trace))))
  }

  predicate DistinctIds(leased: seq<Leased>) {
    forall i, j :: 0 <= i < j < |leased| ==> leased[i].Id() != leased[j].Id()
  }

  predicate DistinctClaims(turns: seq<Turn>) {
    forall i :: 0 <= i < |turns| && turns[i].claim.Claims? ==> DistinctIds(turns[i].claim.leased)
  }

  lemma IdsCons(a: Leased, rest: seq<Leased>)
    ensures Ids([a] + rest) == {a.Id()} + Ids(rest)
  {}

  lemma {:induction false} FreshIds(leased: seq<Leased>, processed: set<Key>)
    ensures Ids(FreshOnly(leased, processed)) == Ids(leased) - processed
  {
    if leased != [] {
      FreshIds(leased[1..], processed);
      IdsCons(leased[0], leased[1..]);
      IdsCons(leased[0], FreshOnly(leased[1..], processed));
      assert leased == [leased[0]] + leased[1..];
      assert [] + FreshOnly(leased[1..], processed) == FreshOnly(leased[1..], processed);
    }
  }

  lemma {:induction false} FreshIsDistinct(leased: seq<Leased>, processed: set<Key>)
    requires DistinctIds(leased)
    ensures DistinctIds(FreshOnly(leased, processed))
  {
    if leased != [] {
      var rest := leased[1..];
      assert forall i :: 0 <= i < |rest| ==> rest[i] == leased[i + 1];
      FreshIsDistinct(rest, processed);
      FreshIds(rest, processed);
      assert leased[0].Id() !in Ids(rest);
      var found := FreshOnly(rest, processed);
      assert forall i :: 0 <= i < |found| ==> found[i].Id() in Ids(found);
    }
  }

  /** An event that neither asks nor clears leaves the sweep as it is. */
  lemma OtherEvent(trace: seq<Event>, e: Event)
    requires !e.Asked? && !e.Cleared?
    ensures AskedSinceClear(trace + [e]) == AskedSinceClear(trace) && (OncePerSweep(trace + [e]) <==> OncePerSweep(trace))
  {
    Snoc(trace, e);
  }

  lemma RequestsAsk(trace: seq<Event>, stop: bool, abort: bool)
    ensures var after := trace + Requests(stop, abort);
      AskedSinceClear(after) == AskedSinceClear(trace) && (OncePerSweep(after) <==> OncePerSweep(trace))
  {
    var mid := trace + if stop then [StopRequested] else [];
    if stop { OtherEvent(trace, StopRequested); } else { assert mid == trace; }
    if abort { OtherEvent(mid, AbortRequested); }
    assert trace + Requests(stop, abort) == mid + if abort then [AbortRequested] else [];
    assert !abort ==> trace + Requests(stop, abort) == mid;
  }

  lemma OtherEvents(trace: seq<Event>, e: Event, stop: bool, abort: bool)
    requires !e.Asked? && !e.Cleared?
    ensures var after := trace + [e] + Requests(stop, abort);
      AskedSinceClear(after) == AskedSinceClear(trace) && (OncePerSweep(after) <==> OncePerSweep(trace))
  {
    OtherEvent(trace, e);
    RequestsAsk(trace + [e], stop, abort);
  }

  lemma QuestionedAsks(w: Work, a: Leased, b: Binding, x: AttemptScript)
    ensures var v := Questioned(w, a, b, x);
      && AskedSinceClear(v.trace) == AskedSinceClear(w.trace) + {a.Id()}
      && (OncePerSweep(v.trace) <==> OncePerSweep(w.trace) && a.Id() !in AskedSinceClear(w.trace))
  {
    var q := Asked(a, b, x.now, x.lookup, x.Cut());
    Snoc(w.trace, q);
    RequestsAsk(w.trace + [q], x.stopDuring, x.abortDuring);
  }

  /** A release, a record and the requests around them ask nothing. */
  lemma EndingsAsk(w: Work, a: Leased, o: Observation, x: AttemptScript)
    ensures AskedSinceClear(Release(w, a, x).trace) == AskedSinceClear(w.trace)
    ensures OncePerSweep(Release(w, a, x).trace) <==> OncePerSweep(w.trace)
    ensures AskedSinceClear(Recording(w, a, o, x).trace) == AskedSinceClear(w.trace)
    ensures OncePerSweep(Recording(w, a, o, x).trace) <==> OncePerSweep(w.trace)
  {
    OtherEvents(w.trace, Released(a), x.stopDuringWrite, x.abortDuringWrite);
    OtherEvents(w.trace, Wrote(a, o, x.reply), x.stopDuringWrite, x.abortDuringWrite);
    RequestsAsk(w.trace, false, x.abortBeforeRecord);
  }

  /** A readable attempt is asked about, an unreadable one is not. */
  lemma AttemptAsks(lane: Lane, w: Work, a: Leased, x: AttemptScript)
    ensures var v := ProcessAttempt(lane, w, a, x);
      if lane.parse(a.raw).None? then
        AskedSinceClear(v.trace) == AskedSinceClear(w.trace) && (OncePerSweep(v.trace) <==> OncePerSweep(w.trace))
      else
        && AskedSinceClear(v.trace) == AskedSinceClear(w.trace) + {a.Id()}
        && (OncePerSweep(v.trace) <==> OncePerSweep(w.trace) && a.Id() !in AskedSinceClear(w.trace))
  {
    match lane.parse(a.raw)
    case None => OtherEvents(w.trace, Released(a), x.stopDuringWrite, x.abortDuringWrite);
    case Some(b) =>
      var w1 := Questioned(w, a, b, x);
      QuestionedAsks(w, a, b, x);
      match AnswerOf(lane, b, x.now, x.lookup, x.Cut())
      case Hold(_) => OtherEvents(w1.trace, Released(a), x.stopDuringWrite, x.abortDuringWrite);
      case Record(o) => EndingsAsk(w1, a, o, x);
  }

  lemma NotAmongEarlier(found: seq<Leased>, n: nat)
    requires DistinctIds(found) && n < |found|
    ensures found[n].Id() in Ids(found) && found[n].Id() !in Ids(found[..n])
    ensures Ids(found[..n + 1]) == Ids(found[..n]) + {found[n].Id()}
  {
    assert found[..n + 1] == found[..n] + [found[n]];
  }

  lemma {:induction false} BatchAsks(lane: Lane, w: Work, found: seq<Leased>, xs: seq<AttemptScript>, n: nat, processed: set<Key>)
    requires n <= |found| && DistinctIds(found) && OncePerSweep(w.trace) && AskedSinceClear(w.trace) <= processed
    requires Ids(found) !! processed
    ensures var v := Batch(lane, w, found, xs, n);
      OncePerSweep(v.trace) && AskedSinceClear(v.trace) <= processed + Ids(found[..n])
  {
    if n > 0 {
      BatchAsks(lane, w, found, xs, n - 1, processed);
      NotAmongEarlier(found, n - 1);
      BatchTurnAsks(lane, Batch(lane, w, found, xs, n - 1), found[n - 1], ScriptAt(xs, n - 1));
    }
  }

  lemma BatchTurnAsks(lane: Lane, w: Work, a: Leased, x: AttemptScript)
    requires OncePerSweep(w.trace) && a.Id() !in AskedSinceClear(w.trace)
    ensures var v := BatchTurn(lane, w, a, x);
      OncePerSweep(v.trace) && AskedSinceClear(v.trace) <= AskedSinceClear(w.trace) + {a.Id()}
  {
    AttemptAsks(lane, w.(deadline := w.deadline || x.deadlineBefore), a, x);
  }

  ghost predicate SweepInv(s: St) { OncePerSweep(s.trace) && AskedSinceClear(s.trace) <= s.processed }

  lemma WaitAsks(c: Config, s: St, t: Turn)
    requires SweepInv(s)
    ensures SweepInv(Wait(c, s, t))
  {
    OtherEvents(s.trace, Waited(s.backoff), t.stopDuringWait, t.abortDuringWait);
  }

  lemma TurnAsks(lane: Lane, c: Config, s: St, t: Turn)
    requires SweepInv(s) && (t.claim.Claims? ==> DistinctIds(t.claim.leased))
    ensures SweepInv(LoopTurn(lane, c, s, t))
  {
    OtherEvents(s.trace, Claiming, t.stopDuringClaim, t.abortDuringClaim);
    match t.claim
    case ClaimFails => FailedAsks(c, Polled(s, t), t);
    case Claims(leased) => ClaimedAsks(lane, c, Polled(s, t), leased, t);
  }

  lemma FailedAsks(c: Config, s: St, t: Turn)
    requires SweepInv(s)
    ensures SweepInv(FailedTurn(c, s, t))
  {
    OtherEvent(s.trace, ClaimFailed);
    WaitAsks(c, s.(errors := s.errors + 1, trace := s.trace + [ClaimFailed]), t);
  }

  lemma EmptyAsks(c: Config, s: St, t: Turn)
    requires SweepInv(s)
    ensures SweepInv(EmptyTurn(c, s, t))
  {
    Snoc(s.trace, Cleared);
    WaitAsks(c, s.(processed := {}, trace := s.trace + [Cleared]), t);
  }

  lemma ClaimedAsks(lane: Lane, c: Config, s: St, leased: seq<Leased>, t: Turn)
    requires SweepInv(s) && DistinctIds(leased)
    ensures SweepInv(ClaimedTurn(lane, c, s, leased, t))
  {
    var s1 := s.(errors := 0, trace := s.trace + [ClaimedSome(leased)]);
    OtherEvent(s.trace, ClaimedSome(leased));
    FreshIds(leased, s.processed);
    FreshIsDistinct(leased, s.processed);
    EmptyAsks(c, s1, t);
    BatchedAsks(lane, c, s1, FreshOnly(leased, s.processed), t);
  }

  lemma BatchedAsks(lane: Lane, c: Config, s: St, found: seq<Leased>, t: Turn)
    requires SweepInv(s) && DistinctIds(found) && Ids(found) !! s.processed
    ensures SweepInv(BatchedTurn(lane, c, s, found, t))
  {
    var start := Work(s.stop, s.aborted, false, false, 0, s.trace + [Batching(found)]);
    var w := Batch(lane, start, found, t.attempts, |found|);
    OtherEvent(s.trace, Batching(found));
    WholeBatchAsks(lane, start, found, t.attempts, s.processed);
    var s1 := s.(processed := s.processed + Ids(found), stop := w.stop, aborted := w.aborted,
                 trace := w.trace + [BatchDone(w.recorded)]);
    OtherEvent(w.trace, BatchDone(w.recorded));
    assert SweepInv(s1);
    WaitAsks(c, s1, t);
  }

  lemma WholeBatchAsks(lane: Lane, w: Work, found: seq<Leased>, xs: seq<AttemptScript>, processed: set<Key>)
    requires DistinctIds(found) && OncePerSweep(w.trace) && AskedSinceClear(w.trace) <= processed && Ids(found) !! processed
    ensures var v := Batch(lane, w, found, xs, |found|);
      OncePerSweep(v.trace) && AskedSinceClear(v.trace) <= processed + Ids(found)
  {
    BatchAsks(lane, w, found, xs, |found|, processed);
    assert found[..|found|] == found;
  }

  lemma {:induction false} RunAsks(lane: Lane, c: Config, turns: seq<Turn>)
    requires DistinctClaims(turns)
    ensures SweepInv(Run(lane, c, turns))
  {
    if turns != [] {
      RunAsks(lane, c, Front(turns));
      TurnAsks(lane, c, Run(lane, c, Front(turns)), Last(turns));
    }
  }

  lemma {:induction false} AskedBetween(trace: seq<Event>, i: nat, j: nat)
    requires OncePerSweep(trace) && i < j < |trace| && trace[i].Asked? && trace[j].Asked?
    requires trace[i].attempt.Id() == trace[j].attempt.Id()
    ensures exists m :: i < m < j && trace[m].Cleared?
    decreases |trace|
  {
    if j < |trace| - 1 {
      AskedBetween(Front(trace), i, j);
      var m :| i < m < j && Front(trace)[m].Cleared?;
      assert trace[m].Cleared?;
    } else if forall m :: i < m < j ==> !trace[m].Cleared? {
      StillAsked(Front(trace), i);
    }
  }

  lemma {:induction false} StillAsked(trace: seq<Event>, i: nat)
    requires i < |trace| && trace[i].Asked? && forall m :: i < m < |trace| ==> !trace[m].Cleared?
    ensures trace[i].attempt.Id() in AskedSinceClear(trace)
    decreases |trace|
  {
    if i < |trace| - 1 { StillAsked(Front(trace), i); }
  }

  /** If no claim lists an attempt twice, an attempt asked about twice was separated by a clear. */
  lemma AskedOncePerSweep(lane: Lane, c: Config, turns: seq<Turn>, i: nat, j: nat)
    requires DistinctClaims(turns) && i < j < |Run(lane, c, turns).trace|
    requires Run(lane, c, turns).trace[i].Asked? && Run(lane, c, turns).trace[j].Asked?
    requires Run(lane, c, turns).trace[i].attempt.Id() == Run(lane, c, turns).trace[j].attempt.Id()
    ensures exists m :: i < m < j && Run(lane, c, turns).trace[m].Cleared?
  {
    RunAsks(lane, c, turns);
    AskedBetween(Run(lane, c, turns).trace, i, j);
  }

  // ---- The condition is exact. ----

  const QUIET: AttemptScript := AttemptScript(false, 0, None, false, false, false, false, Threw, false, false, false)

  function Quiet(n: nat): seq<AttemptScript> { seq(n, _ => QUIET) }

  /** Attempts whose binding can be read and whose lease never ends. */
  predicate Askable(lane: Lane, found: seq<Leased>) {
    forall i :: 0 <= i < |found| ==> lane.parse(found[i].raw).Some? && found[i].leaseUntil.None?
  }

  lemma QuietTurn(lane: Lane, w: Work, a: Leased)
    requires lane.parse(a.raw).Some? && a.leaseUntil.None? && !w.over && !w.deadline && !w.aborted
    ensures var v := BatchTurn(lane, w, a, QUIET);
      && !v.over && !v.deadline && !v.aborted && AskedSinceClear(v.trace) == AskedSinceClear(w.trace) + {a.Id()}
      && (OncePerSweep(v.trace) <==> OncePerSweep(w.trace) && a.Id() !in AskedSinceClear(w.trace))
  {
    AttemptAsks(lane, w, a, QUIET);
    assert AnswerOf(lane, lane.parse(a.raw).value, QUIET.now, QUIET.lookup, QUIET.Cut()) == Hold(TransportThrew);
  }

  /** The first `n` attempts have been asked about, and nothing has cut the batch off. */
  predicate HasAskedAll(w: Work, found: seq<Leased>, n: nat)
    requires n <= |found|
  {
    && !w.over && !w.deadline && !w.aborted && Ids(found[..n]) == AskedSinceClear(w.trace)
    && (OncePerSweep(w.trace) ==> DistinctIds(found[..n]))
  }

  lemma QuietTurnAsks(lane: Lane, w: Work, found: seq<Leased>, n: nat)
    requires n < |found| && Askable(lane, found) && HasAskedAll(w, found, n)
    ensures HasAskedAll(BatchTurn(lane, w, found[n], QUIET), found, n + 1)
  {
    QuietTurn(lane, w, found[n]);
    IdsSnoc(found, n);
  }

  lemma NoneAsked(found: seq<Leased>)
    ensures HasAskedAll(Work(false, false, false, false, 0, []), found, 0)
  {
    assert found[..0] == [];
  }

  lemma QuietStep(lane: Lane, w: Work, found: seq<Leased>, n: nat)
    requires 0 < n <= |found| && Askable(lane, found) && HasAskedAll(Batch(lane, w, found, Quiet(|found|), n - 1), found, n - 1)
    ensures HasAskedAll(Batch(lane, w, found, Quiet(|found|), n), found, n)
  {
    QuietTurnAsks(lane, Batch(lane, w, found, Quiet(|found|), n - 1), found, n - 1);
    LastTurn(lane, w, found, Quiet(|found|), n);
  }

  lemma LastTurn(lane: Lane, w: Work, leased: seq<Leased>, xs: seq<AttemptScript>, n: nat)
    requires 0 < n <= |leased| && n <= |xs|
    ensures Batch(lane, w, leased, xs, n) == BatchTurn(lane, Batch(lane, w, leased, xs, n - 1), leased[n - 1], xs[n - 1])
  {}

  lemma {:induction false} QuietBatchAsksAll(lane: Lane, w: Work, found: seq<Leased>, n: nat)
    requires n <= |found| && Askable(lane, found) && w == Work(false, false, false, false, 0, [])
    ensures HasAskedAll(Batch(lane, w, found, Quiet(|found|), n), found, n)
    decreases n
  {
    if n == 0 {
      NoneAsked(found);
    } else {
      QuietBatchAsksAll(lane, w, found, n - 1);
      QuietStep(lane, w, found, n);
    }
  }

  lemma IdsSnoc(found: seq<Leased>, n: nat)
    requires n < |found|
    ensures Ids(found[..n + 1]) == Ids(found[..n]) + {found[n].Id()}
    ensures DistinctIds(found[..n]) && found[n].Id() !in Ids(found[..n]) ==> DistinctIds(found[..n + 1])
  {
    var front := found[..n];
    assert found[..n + 1] == front + [found[n]];
    assert forall i :: 0 <= i < n ==> front[i] in front && front[i].Id() in Ids(front);
  }

  /** A batch asks about each attempt at most once, whatever happens during it, exactly when it lists none twice. */
  lemma BatchAsksOnceIff(lane: Lane, found: seq<Leased>)
    requires Askable(lane, found)
    ensures (forall xs :: OncePerSweep(Batch(lane, Work(false, false, false, false, 0, []), found, xs, |found|).trace))
      <==> DistinctIds(found)
  {
    var w := Work(false, false, false, false, 0, []);
    if DistinctIds(found) {
      forall xs ensures OncePerSweep(Batch(lane, w, found, xs, |found|).trace) { BatchAsks(lane, w, found, xs, |found|, {}); }
    } else {
      QuietBatchAsksAll(lane, w, found, |found|);
      assert found[..|found|] == found;
      assert !OncePerSweep(Batch(lane, w, found, Quiet(|found|), |found|).trace);
    }
  }
}
