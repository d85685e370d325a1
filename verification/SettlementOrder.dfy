/** In which order the settlement observation loop claims, batches, clears and waits. */
module SettlementOrder {
  import opened Prelude
  import opened PaymentAttempts
  import opened SettlementLoop
  import opened SettlementSweep

  /** The last event that is not a request. */
  function LastAct(trace: seq<Event>): Option<Event> {
    if trace == [] then None
    else if IsRequest(Last(trace)) then LastAct(Front(trace))
    else Some(Last(trace))
  }

  /** Attempts that claims have listed since the last clear. */
  function Listed(trace: seq<Event>): set<Key> {
    if trace == [] then {}
    else
      match Last(trace)
      case Cleared => {}
      case ClaimedSome(leased) => Listed(Front(trace)) + (set a | a in leased :: Key(a.org, a.raw.attemptId))
      case _ => Listed(Front(trace))
  }

  /** The attempts of a claim that no claim since the last clear has listed, in the claim's order. */
  function Unlisted(leased: seq<Leased>, listed: set<Key>): seq<Leased> {
    if leased == [] then []
    else
      var a := leased[|leased| - 1];
      Unlisted(leased[..|leased| - 1], listed) + (if Key(a.org, a.raw.attemptId) in listed then [] else [a])
  }

  /** What a claim leads to: a batch of its unlisted attempts, or a clear if there are none. */
  function Sorted(before: seq<Event>, leased: seq<Leased>): Event {
    if Unlisted(leased, Listed(before)) == [] then Cleared else Batching(Unlisted(leased, Listed(before)))
  }

  predicate InBatch(e: Event) { e.Asked? || e.Released? || e.Wrote? }

  /** Which event may follow another: only a batch that recorded something goes on to a claim without a wait. */
  predicate Follows(last: Event, e: Event) {
    match last
    case Claiming => e.ClaimFailed? || e.ClaimedSome?
    case ClaimFailed => e.Waited?
    case Cleared => e.Waited?
    case BatchDone(n) => if n == 0 then e.Waited? else e.Claiming?
    case Waited(_) => e.Claiming?
    case ClaimedSome(_) => e.Cleared? || e.Batching?
    case _ => InBatch(e) || e.BatchDone?
  }

  predicate Ordered(before: seq<Event>, e: Event) {
    if before != [] && Last(before).ClaimedSome? then e == Sorted(Front(before), Last(before).leased)
    else IsRequest(e) || (if LastAct(before).None? then e.Claiming? else Follows(LastAct(before).value, e))
  }

  predicate InOrder(trace: seq<Event>) { trace == [] || (InOrder(Front(trace)) && Ordered(Front(trace), Last(trace))) }

  /** Between turns: at the start, after a wait, or after a batch that recorded something. */
  predicate BetweenTurns(trace: seq<Event>) {
    match LastAct(trace)
    case None => true
    case Some(Waited(_)) => true
    case Some(BatchDone(n)) => n > 0
    case _ => false
  }

  predicate WithinBatch(trace: seq<Event>) {
    LastAct(trace).Some? && (LastAct(trace).value.Batching? || InBatch(LastAct(trace).value))
  }

  /** No claim has just been answered, so requests may come. */
  predicate Open(trace: seq<Event>) { trace == [] || !Last(trace).ClaimedSome? }

  // ---- One event. ----

  lemma Added(trace: seq<Event>, e: Event)
    requires InOrder(trace) && Ordered(trace, e)
    ensures InOrder(trace + [e]) && LastAct(trace + [e]) == (if IsRequest(e) then LastAct(trace) else Some(e))
    ensures !e.ClaimedSome? && !e.Cleared? ==> Listed(trace + [e]) == Listed(trace)
    ensures !e.ClaimedSome? ==> Open(trace + [e])
  {
    Snoc(trace, e);
  }

  lemma RequestsAdded(trace: seq<Event>, stop: bool, abort: bool)
    requires InOrder(trace) && Open(trace)
    ensures var after := trace + Requests(stop, abort);
      InOrder(after) && LastAct(after) == LastAct(trace) && Listed(after) == Listed(trace) && Open(after)
  {
    var after := trace + Requests(stop, abort);
    if stop && abort {
      Added(trace, StopRequested);
      Added(trace + [StopRequested], AbortRequested);
      assert after == trace + [StopRequested] + [AbortRequested];
    } else if stop {
      Added(trace, StopRequested);
      assert after == trace + [StopRequested];
    } else if abort {
      Added(trace, AbortRequested);
      assert after == trace + [AbortRequested];
    } else {
      assert after == trace;
    }
  }

  lemma EventAdded(trace: seq<Event>, e: Event, stop: bool, abort: bool)
    requires InOrder(trace) && Ordered(trace, e) && !IsRequest(e) && !e.ClaimedSome? && !e.Cleared?
    ensures var after := trace + [e] + Requests(stop, abort);
      InOrder(after) && LastAct(after) == Some(e) && Listed(after) == Listed(trace) && Open(after)
  {
    Added(trace, e);
    RequestsAdded(trace + [e], stop, abort);
  }

  // ---- A batch. ----

  predicate Working(trace: seq<Event>, listed: set<Key>) {
    InOrder(trace) && WithinBatch(trace) && Open(trace) && Listed(trace) == listed
  }

  lemma WorkAdded(trace: seq<Event>, listed: set<Key>, e: Event, stop: bool, abort: bool)
    requires Working(trace, listed) && InBatch(e)
    ensures Working(trace + [e] + Requests(stop, abort), listed)
  {
    EventAdded(trace, e, stop, abort);
  }

  lemma AttemptWorks(lane: Lane, w: Work, listed: set<Key>, a: Leased, x: AttemptScript)
    requires Working(w.trace, listed)
    ensures Working(ProcessAttempt(lane, w, a, x).trace, listed)
  {
    match lane.parse(a.raw)
    case None => WorkAdded(w.trace, listed, Released(a), x.stopDuringWrite, x.abortDuringWrite);
    case Some(b) =>
      var w1 := Questioned(w, a, b, x);
      WorkAdded(w.trace, listed, Asked(a, b, x.now, x.lookup, x.Cut()), x.stopDuring, x.abortDuring);
      match AnswerOf(lane, b, x.now, x.lookup, x.Cut())
      case Hold(_) => WorkAdded(w1.trace, listed, Released(a), x.stopDuringWrite, x.abortDuringWrite);
      case Record(o) => RecordingWorks(w1, listed, a, o, x);
  }

  lemma RecordingWorks(w: Work, listed: set<Key>, a: Leased, o: Observation, x: AttemptScript)
    requires Working(w.trace, listed)
    ensures Working(Recording(w, a, o, x).trace, listed)
  {
    if w.aborted || x.abortBeforeRecord {
      RequestsAdded(w.trace, false, x.abortBeforeRecord);
    } else {
      WorkAdded(w.trace, listed, Wrote(a, o, x.reply), x.stopDuringWrite, x.abortDuringWrite);
    }
  }

  lemma TurnWorks(lane: Lane, w: Work, listed: set<Key>, a: Leased, x: AttemptScript)
    requires Working(w.trace, listed)
    ensures Working(BatchTurn(lane, w, a, x).trace, listed)
  {
    AttemptWorks(lane, w.(deadline := w.deadline || x.deadlineBefore), listed, a, x);
  }

  lemma {:induction false} BatchWorks(lane: Lane, w: Work, listed: set<Key>, leased: seq<Leased>, xs: seq<AttemptScript>, n: nat)
    requires n <= |leased| && Working(w.trace, listed)
    ensures Working(Batch(lane, w, leased, xs, n).trace, listed)
    decreases n
  {
    if n > 0 {
      BatchWorks(lane, w, listed, leased, xs, n - 1);
      LastTurnWorks(lane, w, listed, leased, xs, n);
    }
  }

  lemma LastTurnWorks(lane: Lane, w: Work, listed: set<Key>, leased: seq<Leased>, xs: seq<AttemptScript>, n: nat)
    requires 0 < n <= |leased| && Working(Batch(lane, w, leased, xs, n - 1).trace, listed)
    ensures Working(Batch(lane, w, leased, xs, n).trace, listed)
  {
    TurnWorks(lane, Batch(lane, w, leased, xs, n - 1), listed, leased[n - 1], ScriptAt(xs, n - 1));
  }

  // ---- A turn. ----

  /** A running loop is between turns, and its processed set is what claims have listed since the last clear. */
  predicate Turning(s: St) {
    InOrder(s.trace) && (!s.halted ==> BetweenTurns(s.trace) && Open(s.trace) && s.processed == Listed(s.trace))
  }

  lemma WaitTurns(c: Config, s: St, t: Turn)
    requires InOrder(s.trace) && Open(s.trace) && !s.halted && s.processed == Listed(s.trace)
    requires LastAct(s.trace) in {Some(ClaimFailed), Some(Cleared), Some(BatchDone(0))}
    ensures Turning(Wait(c, s, t))
  {
    EventAdded(s.trace, Waited(s.backoff), t.stopDuringWait, t.abortDuringWait);
  }

  lemma PollTurns(s: St, t: Turn)
    requires Turning(s) && !s.halted
    ensures var p := Polled(s, t); InOrder(p.trace) && LastAct(p.trace) == Some(Claiming) && Open(p.trace) && Listed(p.trace) == s.processed
  {
    EventAdded(s.trace, Claiming, t.stopDuringClaim, t.abortDuringClaim);
  }

  lemma FailedTurns(c: Config, s: St, t: Turn)
    requires InOrder(s.trace) && LastAct(s.trace) == Some(Claiming) && Open(s.trace) && !s.halted && s.processed == Listed(s.trace)
    ensures Turning(FailedTurn(c, s, t))
  {
    Added(s.trace, ClaimFailed);
    var s1 := s.(errors := s.errors + 1, trace := s.trace + [ClaimFailed]);
    if s1.errors < c.maxErrors { WaitTurns(c, s1, t); }
  }

  lemma {:induction false} UnlistedIsFresh(leased: seq<Leased>, listed: set<Key>)
    ensures Unlisted(leased, listed) == FreshOnly(leased, listed)
  {
    if leased != [] {
      var front, a := leased[..|leased| - 1], leased[|leased| - 1];
      UnlistedIsFresh(front, listed);
      FreshOfSnoc(front, a, listed);
      assert leased == front + [a];
    }
  }

  lemma {:induction false} UnlistedIds(leased: seq<Leased>, listed: set<Key>)
    ensures Ids(Unlisted(leased, listed)) == Ids(leased) - listed
  {
    UnlistedIsFresh(leased, listed);
    FreshIds(leased, listed);
  }

  lemma {:induction false} FreshOfSnoc(leased: seq<Leased>, a: Leased, listed: set<Key>)
    ensures FreshOnly(leased + [a], listed) == FreshOnly(leased, listed) + (if a.Id() in listed then [] else [a])
  {
    if leased == [] {
      assert [] + [a] == [a] && [a][1..] == [];
    } else {
      FreshOfSnoc(leased[1..], a, listed);
      assert (leased + [a])[1..] == leased[1..] + [a] && (leased + [a])[0] == leased[0];
    }
  }

  lemma ClaimTurns(lane: Lane, c: Config, s: St, leased: seq<Leased>, t: Turn)
    requires InOrder(s.trace) && LastAct(s.trace) == Some(Claiming) && Open(s.trace) && !s.halted && s.processed == Listed(s.trace)
    ensures Turning(ClaimedTurn(lane, c, s, leased, t))
  {
    var s1 := s.(errors := 0, trace := s.trace + [ClaimedSome(leased)]);
    Added(s.trace, ClaimedSome(leased));
    Snoc(s.trace, ClaimedSome(leased));
    UnlistedIsFresh(leased, s.processed);
    UnlistedIds(leased, s.processed);
    assert Listed(s1.trace) == s.processed + Ids(leased) by {
      assert Ids(leased) == set a | a in leased :: Key(a.org, a.raw.attemptId);
    }
    var found := FreshOnly(leased, s.processed);
    if !s1.stop {
      if found == [] { EmptyTurns(c, s1, t); } else { BatchTurns(lane, c, s1, found, t); }
    }
  }

  /** Right after a claim was answered. */
  predicate JustClaimed(s: St, found: seq<Leased>) {
    && InOrder(s.trace) && s.trace != [] && Last(s.trace).ClaimedSome? && !s.halted
    && found == Unlisted(Last(s.trace).leased, Listed(Front(s.trace)))
    && Listed(s.trace) == s.processed + Ids(found)
  }

  lemma EmptyTurns(c: Config, s: St, t: Turn)
    requires JustClaimed(s, [])
    ensures Turning(EmptyTurn(c, s, t))
  {
    Added(s.trace, Cleared);
    Snoc(s.trace, Cleared);
    WaitTurns(c, s.(processed := {}, trace := s.trace + [Cleared]), t);
  }

  lemma BatchTurns(lane: Lane, c: Config, s: St, found: seq<Leased>, t: Turn)
    requires JustClaimed(s, found) && found != []
    ensures Turning(BatchedTurn(lane, c, s, found, t))
  {
    Added(s.trace, Batching(found));
    var start := Work(s.stop, s.aborted, false, false, 0, s.trace + [Batching(found)]);
    BatchWorks(lane, start, Listed(s.trace), found, t.attempts, |found|);
    var w := Batch(lane, start, found, t.attempts, |found|);
    Added(w.trace, BatchDone(w.recorded));
    var s1 := s.(processed := s.processed + Ids(found), stop := w.stop, aborted := w.aborted,
                 trace := w.trace + [BatchDone(w.recorded)]);
    if w.recorded == 0 { WaitTurns(c, s1, t); }
  }

  lemma {:induction false} RunTurns(lane: Lane, c: Config, turns: seq<Turn>)
    ensures Turning(Run(lane, c, turns))
  {
    if turns != [] {
      var s, t := Run(lane, c, Front(turns)), Last(turns);
      RunTurns(lane, c, Front(turns));
      if !s.halted && !s.stop {
        PollTurns(s, t);
        match t.claim
        case ClaimFails => FailedTurns(c, Polled(s, t), t);
        case Claims(leased) => ClaimTurns(lane, c, Polled(s, t), leased, t);
      }
    }
  }

  lemma {:induction false} OrderedAt(trace: seq<Event>, i: nat)
    requires InOrder(trace) && i < |trace|
    ensures Ordered(trace[..i], trace[i])
    decreases |trace|
  {
    if i == |trace| - 1 {
      assert trace[..i] == Front(trace);
    } else {
      OrderedAt(Front(trace), i);
      assert Front(trace)[..i] == trace[..i];
    }
  }

  // ---- The theorems. ----

  /**
   * What the loop does next is fixed by what it did last: it waits after a failed claim, a clear or a batch without a
   * record, claims after a wait or any other batch, and is never left in between while it runs.
   */
  lemma EventsAreOrdered(lane: Lane, c: Config, turns: seq<Turn>, i: nat)
    requires i < |Run(lane, c, turns).trace| && !IsRequest(Run(lane, c, turns).trace[i])
    ensures var trace := Run(lane, c, turns).trace;
      if LastAct(trace[..i]).None? then trace[i] == Claiming else Follows(LastAct(trace[..i]).value, trace[i])
    ensures !Run(lane, c, turns).halted ==> BetweenTurns(Run(lane, c, turns).trace)
  {
    RunTurns(lane, c, turns);
    OrderedAt(Run(lane, c, turns).trace, i);
  }

  /**
   * A claim is followed by a batch of exactly those of its attempts that no claim since the last clear has listed, or
   * by a clear if there are none: so a clear makes every attempt askable again.
   */
  lemma ClaimsAreSorted(lane: Lane, c: Config, turns: seq<Turn>, i: nat)
    requires i + 1 < |Run(lane, c, turns).trace| && Run(lane, c, turns).trace[i].ClaimedSome?
    ensures var trace := Run(lane, c, turns).trace;
      var unlisted := Unlisted(trace[i].leased, Listed(trace[..i]));
      trace[i + 1] == if unlisted == [] then Cleared else Batching(unlisted)
  {
    var trace := Run(lane, c, turns).trace;
    RunTurns(lane, c, turns);
    OrderedAt(trace, i + 1);
    assert Front(trace[..i + 1]) == trace[..i] && Last(trace[..i + 1]) == trace[i];
  }

  /** The loop goes on turn after turn: it has ended only after a stop request or at its bound on failed claims. */
  lemma LoopGoesOn(lane: Lane, c: Config, turns: seq<Turn>, t: Turn)
    requires var s := Run(lane, c, turns); !s.halted && !s.stop
    ensures var s, u := Run(lane, c, turns), Run(lane, c, turns + [t]);
      |u.trace| > |s.trace| && u.trace[..|s.trace|] == s.trace && u.trace[|s.trace|] == Claiming
  {
    assert (turns + [t])[..|turns|] == turns;
    var s := Run(lane, c, turns);
    PolledFirst(lane, c, s, t);
  }

  lemma PolledFirst(lane: Lane, c: Config, s: St, t: Turn)
    requires !s.halted && !s.stop
    ensures var u := LoopTurn(lane, c, s, t); s.trace + [Claiming] <= u.trace
  {
    var p := Polled(s, t);
    assert s.trace + [Claiming] <= p.trace;
    match t.claim
    case ClaimFails => assert p.trace <= FailedTurn(c, p, t).trace;
    case Claims(leased) => ClaimExtends(lane, c, p, leased, t);
  }

  lemma ClaimExtends(lane: Lane, c: Config, s: St, leased: seq<Leased>, t: Turn)
    ensures s.trace <= ClaimedTurn(lane, c, s, leased, t).trace
  {
    var s1 := s.(errors := 0, trace := s.trace + [ClaimedSome(leased)]);
    assert s.trace <= s1.trace <= EmptyTurn(c, s1, t).trace;
    BatchedExtends(lane, c, s1, FreshOnly(leased, s.processed), t);
  }

  lemma BatchedExtends(lane: Lane, c: Config, s: St, found: seq<Leased>, t: Turn)
    ensures s.trace <= BatchedTurn(lane, c, s, found, t).trace
  {
    var start := Work(s.stop, s.aborted, false, false, 0, s.trace + [Batching(found)]);
    BatchExtends(lane, start, found, t.attempts, |found|);
    var w := Batch(lane, start, found, t.attempts, |found|);
    assert s.trace <= start.trace <= w.trace <= w.trace + [BatchDone(w.recorded)];
  }

  lemma AttemptExtends(lane: Lane, w: Work, a: Leased, x: AttemptScript)
    ensures w.trace <= ProcessAttempt(lane, w, a, x).trace
  {
    match lane.parse(a.raw)
    case None =>
    case Some(b) =>
      var w1 := Questioned(w, a, b, x);
      assert w.trace <= w1.trace <= Release(w1, a, x).trace;
      match AnswerOf(lane, b, x.now, x.lookup, x.Cut())
      case Hold(_) =>
      case Record(o) => assert w1.trace <= Recording(w1, a, o, x).trace;
  }

  lemma {:induction false} BatchExtends(lane: Lane, w: Work, leased: seq<Leased>, xs: seq<AttemptScript>, n: nat)
    requires n <= |leased|
    ensures w.trace <= Batch(lane, w, leased, xs, n).trace
  {
    if n > 0 {
      BatchExtends(lane, w, leased, xs, n - 1);
      var v, x := Batch(lane, w, leased, xs, n - 1), ScriptAt(xs, n - 1);
      AttemptExtends(lane, v.(deadline := v.deadline || x.deadlineBefore), leased[n - 1], x);
      assert v.trace <= BatchTurn(lane, v, leased[n - 1], x).trace;
    }
  }
}
