/** Which acknowledgements of the notification worker can still follow a stop, an abort or a deadline. */
module WorkerAborts {
  import opened Prelude
  import opened WorkerLoop
  import opened WorkerSafety

  lemma OneStep(c: Config, s: State, step: Step, rest: seq<Step>, t: State)
    requires Enabled(s, step) && RunsTo(c, Next(c, s, step), rest, t)
    ensures RunsTo(c, s, [step] + rest, t)
  {
    assert ([step] + rest)[1..] == rest;
  }

  lemma {:induction false} Join(c: Config, s: State, first: seq<Step>, mid: State, second: seq<Step>, t: State)
    requires RunsTo(c, s, first, mid) && RunsTo(c, mid, second, t)
    ensures RunsTo(c, s, first + second, t)
    decreases |first|
  {
    if first == [] {
      assert first + second == second;
    } else {
      Join(c, Next(c, s, first[0]), first[1..], mid, second, t);
      assert (first + second)[1..] == first[1..] + second;
    }
  }

  predicate AnyAck(a: Act) { a.CompleteCall? || a.FailCall? }

  /** Past this state some run acknowledges an event. */
  ghost predicate CanAck(c: Config, s: State) {
    exists steps, t :: RunsTo(c, s, steps, t) && LateAck(s, t)
  }

  ghost predicate LateAck(s: State, t: State) { exists n :: |s.acts| <= n < |t.acts| && AnyAck(t.acts[n]) }

  /** Runs only add to the log, and an ended worker adds nothing but requests. */
  lemma {:induction false} RunExtends(c: Config, s: State, steps: seq<Step>, t: State)
    requires RunsTo(c, s, steps, t)
    ensures s.acts <= t.acts
    ensures s.pc.Ended? ==> t.pc.Ended? && forall n :: |s.acts| <= n < |t.acts| ==> IsRequest(t.acts[n])
    decreases |steps|
  {
    if steps != [] {
      StepExtends(c, s, steps[0]);
      RunExtends(c, Next(c, s, steps[0]), steps[1..], t);
    }
  }

  lemma StepExtends(c: Config, s: State, step: Step)
    requires Enabled(s, step)
    ensures s.acts <= Next(c, s, step).acts
    ensures s.pc.Ended? ==> Next(c, s, step).pc.Ended?
    ensures s.pc.Ended? ==> forall n :: |s.acts| <= n < |Next(c, s, step).acts| ==> IsRequest(Next(c, s, step).acts[n])
  {}

  predicate IsRequest(a: Act) { a.StopCall? || a.AbortCall? }

  lemma AckMeansRunning(c: Config, before: seq<Step>, s: State, steps: seq<Step>, t: State, n: nat)
    requires c.Valid() && RunsTo(c, Begin(c), before, s) && RunsTo(c, s, steps, t)
    requires |s.acts| <= n < |t.acts| && AnyAck(t.acts[n])
    ensures !s.stop && !s.pc.Ended?
  {
    RunExtends(c, s, steps, t);
    Join(c, Begin(c), before, s, steps, t);
    AcksAreSafe(c, before + steps, t, n, t.acts[n].batch, t.acts[n].i);
    assert forall m :: 0 <= m < |s.acts| ==> s.acts[m] == t.acts[m];
    BeginGood(c);
    RunGood(c, Begin(c), before, s);
  }

  // How a worker that is neither stopped nor ended gets to another acknowledgement.

  /** How far a task is from settling; every move lowers it. */
  function Rank(t: Task): nat {
    match t
    case Fresh(_) => 6
    case Handling(_, result, timedOut, rejected) => if result.Some? || timedOut || rejected then 4 else 5
    case Decided(_, _) => 3
    case Acking => 2
    case Finished => 0
  }

  /** A step that moves a task on. */
  function MoveOn(s: State, i: nat): Step
    requires Has(s, i) && !s.tasks[i].Finished?
  {
    match s.tasks[i]
    case Fresh(_) => StartTask(i, 0)
    case Handling(_, result, timedOut, rejected) =>
      if result.Some? || timedOut || rejected then Decide(i) else HandlerSettles(i, Returned)
    case Decided(_, _) => Step.Act(i)
    case _ => AckReturns(i)
  }

  /** The same worker, with no task but `i` changed. */
  predicate Moved(s: State, t: State, i: nat) {
    && t.pc == s.pc && t.stop == s.stop && |t.tasks| == |s.tasks|
    && forall j :: 0 <= j < |s.tasks| && j != i ==> t.tasks[j] == s.tasks[j]
  }

  lemma MovesOn(c: Config, s: State, i: nat)
    requires Has(s, i) && !s.tasks[i].Finished?
    ensures Enabled(s, MoveOn(s, i)) && Moved(s, Next(c, s, MoveOn(s, i)), i)
    ensures Rank(Next(c, s, MoveOn(s, i)).tasks[i]) < Rank(s.tasks[i])
  {}

  lemma {:induction false} TaskSettles(c: Config, s: State, i: nat) returns (steps: seq<Step>, t: State)
    requires Has(s, i)
    ensures RunsTo(c, s, steps, t) && Moved(s, t, i) && t.tasks[i].Finished?
    decreases Rank(s.tasks[i])
  {
    steps, t := [], s;
    if !s.tasks[i].Finished? {
      MovesOn(c, s, i);
      var rest;
      rest, t := TaskSettles(c, Next(c, s, MoveOn(s, i)), i);
      OneStep(c, s, MoveOn(s, i), rest, t);
      steps := [MoveOn(s, i)] + rest;
    }
  }

  lemma {:induction false} BatchCanSettle(c: Config, s: State, n: nat) returns (steps: seq<Step>, t: State)
    requires s.pc.Working? && n <= |s.tasks| && forall j :: n <= j < |s.tasks| ==> s.tasks[j].Finished?
    ensures RunsTo(c, s, steps, t) && t.pc.Working? && t.stop == s.stop
    ensures forall j :: 0 <= j < |t.tasks| ==> t.tasks[j].Finished?
    decreases n
  {
    steps, t := [], s;
    if n > 0 {
      var first, mid := TaskSettles(c, s, n - 1);
      var second;
      second, t := BatchCanSettle(c, mid, n - 1);
      Join(c, s, first, mid, second, t);
      steps := first + second;
    }
  }

  lemma CanClaim(c: Config, s: State) returns (steps: seq<Step>, t: State)
    requires !s.stop && !s.pc.Ended?
    ensures RunsTo(c, s, steps, t) && t.pc.Claiming? && !t.stop
  {
    match s.pc
    case Claiming => steps, t := [], s;
    case Unstarted =>
      steps, t := [Start], Next(c, s, Start);
      assert RunsTo(c, t, [], t);
    case Sleeping =>
      steps, t := [Wake], Next(c, s, Wake);
      assert RunsTo(c, t, [], t);
    case Working =>
      var first, mid := BatchCanSettle(c, s, |s.tasks|);
      t := Next(c, mid, BatchSettles);
      assert RunsTo(c, t, [], t);
      Join(c, s, first, mid, [BatchSettles], t);
      steps := first + [BatchSettles];
  }

  const UNREADABLE: Item := Item(false, None, true)

  lemma ClaimCanFail(c: Config, s: State) returns (steps: seq<Step>, t: State)
    requires s.pc.Claiming? && !s.stop
    ensures RunsTo(c, s, steps, t) && s.acts < t.acts && AnyAck(Last(t.acts))
  {
    var u := Next(c, s, ClaimReturns([UNREADABLE]));
    assert u.tasks == [Fresh(UNREADABLE)];
    t := Next(c, u, StartTask(0, 0));
    assert t.acts == u.acts + [FailCall(u.batch, 0, InvalidEvent)];
    assert RunsTo(c, t, [], t);
    OneStep(c, u, StartTask(0, 0), [], t);
    OneStep(c, s, ClaimReturns([UNREADABLE]), [StartTask(0, 0)] + [], t);
    steps := [ClaimReturns([UNREADABLE])] + ([StartTask(0, 0)] + []);
  }

  /**
   * From any point of a run, aborted or not, an acknowledgement can still follow if and only if no
   * stop was requested and the loop has not ended: the abort itself prevents none of the next batches'.
   */
  lemma AckCanFollowIff(c: Config, before: seq<Step>, s: State)
    requires c.Valid() && RunsTo(c, Begin(c), before, s)
    ensures CanAck(c, s) <==> !s.stop && !s.pc.Ended?
  {
    forall steps, t, n | RunsTo(c, s, steps, t) && |s.acts| <= n < |t.acts| && AnyAck(t.acts[n])
      ensures !s.stop && !s.pc.Ended?
    {
      AckMeansRunning(c, before, s, steps, t, n);
    }
    if !s.stop && !s.pc.Ended? {
      var first, mid := CanClaim(c, s);
      var second, t := ClaimCanFail(c, mid);
      Join(c, s, first, mid, second, t);
      RunExtends(c, s, first, mid);
      assert t.acts[|t.acts| - 1] == Last(t.acts) && |s.acts| <= |t.acts| - 1;
      assert LateAck(s, t);
    }
  }

  // ---- Event by event. ----

  /** Past this state some run acknowledges event `i` of batch `b`. */
  ghost predicate CanAckEvent(c: Config, s: State, b: nat, i: nat) {
    exists steps, t :: RunsTo(c, s, steps, t) && LateAckOf(s, t, b, i)
  }

  ghost predicate LateAckOf(s: State, t: State, b: nat, i: nat) {
    exists n :: |s.acts| <= n < |t.acts| && IsAcknowledgement(t.acts[n], b, i)
  }

  /**
   * The stages from which an event can be acknowledged: not started and either valid or nameable; timed
   * out; its race undecided, which after an abort means its handler was called later; finished by its
   * handler with no abort since; or decided other than aborted.
   */
  predicate Ackable(aborted: bool, t: Task) {
    match t
    case Fresh(item) => item.valid || item.named
    case Handling(_, result, timedOut, rejected) => timedOut || (if result.None? then !rejected else !aborted)
    case Decided(_, outcome) => !outcome.OutcomeAborted?
    case _ => false
  }

  /** Only an abort or the batch deadline rejects a handler's race. */
  predicate RejectionsOk(s: State) {
    forall j :: 0 <= j < |s.tasks| && s.tasks[j].Handling? && s.tasks[j].rejected ==> s.aborted || s.deadline || !s.pc.Working?
  }

  lemma RejectionsStep(c: Config, s: State, step: Step)
    requires Enabled(s, step) && RejectionsOk(s)
    ensures RejectionsOk(Next(c, s, step))
  {}

  lemma {:induction false} RejectionsRun(c: Config, s: State, steps: seq<Step>, t: State)
    requires RunsTo(c, s, steps, t) && RejectionsOk(s)
    ensures RejectionsOk(t)
    decreases |steps|
  {
    if steps != [] {
      RejectionsStep(c, s, steps[0]);
      RejectionsRun(c, Next(c, s, steps[0]), steps[1..], t);
    }
  }

  /** Event `i` of batch `b` will not be acknowledged any more. */
  predicate Closed(s: State, b: nat, i: nat) {
    && s.batch >= b
    && (s.batch == b && s.pc.Working? ==> i < |s.tasks| && (s.stop || s.deadline || !Ackable(s.aborted, s.tasks[i])))
  }

  /** Closed afterwards, with no acknowledgement of the event logged in between. */
  ghost predicate StaysClosed(s: State, t: State, b: nat, i: nat) {
    Closed(t, b, i) && forall n :: |s.acts| <= n < |t.acts| ==> !IsAcknowledgement(t.acts[n], b, i)
  }

  /** The task a step is about. */
  function TaskOf(step: Step): Option<nat> {
    match step
    case StartTask(j, _) => Some(j)
    case HandlerSettles(j, _) => Some(j)
    case TimerFires(j) => Some(j)
    case Decide(j) => Some(j)
    case Act(j) => Some(j)
    case AckReturns(j) => Some(j)
    case _ => None
  }

  lemma ClosedStep(c: Config, s: State, step: Step, b: nat, i: nat)
    requires Enabled(s, step) && RejectionsOk(s) && Closed(s, b, i)
    ensures StaysClosed(s, Next(c, s, step), b, i)
  {
    match TaskOf(step)
    case None => if s.pc.Working? { ClosedByRequest(c, s, step, b, i); } else { ClosedByLoop(c, s, step, b, i); }
    case Some(j) =>
      if s.batch == b && j == i {
        ClosedByItself(c, s, step, i);
      } else {
        TaskMoves(c, s, step, j);
        ClosedByOther(s, Next(c, s, step), j, b, i);
      }
  }

  lemma ClosedByLoop(c: Config, s: State, step: Step, b: nat, i: nat)
    requires Enabled(s, step) && Closed(s, b, i) && TaskOf(step).None? && !s.pc.Working?
    ensures StaysClosed(s, Next(c, s, step), b, i)
  {}

  lemma ClosedByRequest(c: Config, s: State, step: Step, b: nat, i: nat)
    requires Enabled(s, step) && Closed(s, b, i) && TaskOf(step).None? && s.pc.Working?
    ensures StaysClosed(s, Next(c, s, step), b, i)
  {}

  /** Only task `j` has moved, and one act about it was logged. */
  predicate OneMoved(s: State, t: State, j: nat) {
    && t == s.(tasks := t.tasks, acts := t.acts) && |t.tasks| == |s.tasks|
    && (forall k :: 0 <= k < |s.tasks| && k != j ==> t.tasks[k] == s.tasks[k])
    && |t.acts| == |s.acts| + 1 && t.acts == s.acts + [Last(t.acts)] && About(Last(t.acts), s.batch, j)
  }

  lemma DispatchMoves(s: State, j: nat, now: int)
    requires Has(s, j) && s.tasks[j].Fresh?
    ensures OneMoved(s, Dispatch(s, j, now), j)
  {}

  lemma AcknowledgeMoves(s: State, j: nat, outcome: Outcome)
    requires Has(s, j)
    ensures OneMoved(s, Acknowledge(s, j, outcome), j)
  {}

  lemma TaskMoves(c: Config, s: State, step: Step, j: nat)
    requires Enabled(s, step) && TaskOf(step) == Some(j)
    ensures OneMoved(s, Next(c, s, step), j)
  {
    match step
    case StartTask(_, now) => DispatchMoves(s, j, now);
    case Act(_) => AcknowledgeMoves(s, j, s.tasks[j].outcome);
    case _ =>
  }

  lemma ClosedByOther(s: State, t: State, j: nat, b: nat, i: nat)
    requires Closed(s, b, i) && OneMoved(s, t, j) && (s.batch != b || j != i)
    ensures StaysClosed(s, t, b, i)
  {}

  lemma ClosedByItself(c: Config, s: State, step: Step, i: nat)
    requires Enabled(s, step) && RejectionsOk(s) && Closed(s, s.batch, i) && TaskOf(step) == Some(i)
    ensures StaysClosed(s, Next(c, s, step), s.batch, i)
  {
    match step
    case StartTask(_, now) => ClosedDispatch(s, i, now);
    case Act(_) => ClosedAct(s, i);
    case _ =>
  }

  lemma ClosedDispatch(s: State, i: nat, now: int)
    requires Has(s, i) && s.tasks[i].Fresh? && Closed(s, s.batch, i)
    ensures StaysClosed(s, Dispatch(s, i, now), s.batch, i)
  {}

  lemma ClosedAct(s: State, i: nat)
    requires Has(s, i) && s.tasks[i].Decided? && Closed(s, s.batch, i)
    ensures StaysClosed(s, Acknowledge(s, i, s.tasks[i].outcome), s.batch, i)
  {}

  lemma {:induction false} ClosedRun(c: Config, s: State, steps: seq<Step>, t: State, b: nat, i: nat)
    requires RunsTo(c, s, steps, t) && RejectionsOk(s) && Closed(s, b, i)
    ensures !LateAckOf(s, t, b, i)
    decreases |steps|
  {
    if steps != [] {
      var u := Next(c, s, steps[0]);
      ClosedStep(c, s, steps[0], b, i);
      RejectionsStep(c, s, steps[0]);
      StepExtends(c, s, steps[0]);
      RunExtends(c, u, steps[1..], t);
      ClosedRun(c, u, steps[1..], t, b, i);
      forall n | |s.acts| <= n < |t.acts| ensures !IsAcknowledgement(t.acts[n], b, i) {
        assert n < |u.acts| ==> t.acts[n] == u.acts[n];
      }
    }
  }

  /** Still on its way to an acknowledgement. */
  predicate OnTheWay(s: State, i: nat) { Has(s, i) && !s.stop && !s.deadline && Ackable(s.aborted, s.tasks[i]) }

  /** The step that brings it nearer: started in time, timed out if nothing has decided its race. */
  function Onward(s: State, i: nat): Step
    requires OnTheWay(s, i)
  {
    match s.tasks[i]
    case Fresh(item) => StartTask(i, if item.leaseUntil.Some? then item.leaseUntil.value - 1 else 0)
    case Handling(_, _, _, _) => if Pending(s.tasks[i]) then TimerFires(i) else Decide(i)
    case _ => Step.Act(i)
  }

  lemma OnwardStep(c: Config, s: State, i: nat)
    requires OnTheWay(s, i)
    ensures Enabled(s, Onward(s, i))
    ensures var t := Next(c, s, Onward(s, i));
      && t.acts == s.acts + [Last(t.acts)]
      && (IsAcknowledgement(Last(t.acts), s.batch, i)
          || (OnTheWay(t, i) && t.batch == s.batch && Rank(t.tasks[i]) < Rank(s.tasks[i])))
  {}

  lemma {:induction false} AckReached(c: Config, s: State, i: nat) returns (steps: seq<Step>, t: State)
    requires OnTheWay(s, i)
    ensures RunsTo(c, s, steps, t) && LateAckOf(s, t, s.batch, i)
    decreases Rank(s.tasks[i])
  {
    var u := Next(c, s, Onward(s, i));
    OnwardStep(c, s, i);
    if IsAcknowledgement(Last(u.acts), s.batch, i) {
      steps, t := [Onward(s, i)], u;
      assert RunsTo(c, u, [], u);
      assert u.acts[|u.acts| - 1] == Last(u.acts);
    } else {
      var rest;
      rest, t := AckReached(c, u, i);
      OneStep(c, s, Onward(s, i), rest, t);
      steps := [Onward(s, i)] + rest;
    }
  }

  /**
   * At any point of a run, aborted or not, an event of the batch in hand can still be acknowledged if and
   * only if no stop was requested, the batch is within its deadline, and the event is at an ackable stage.
   */
  lemma EventCanAckIff(c: Config, before: seq<Step>, s: State, i: nat)
    requires RunsTo(c, Begin(c), before, s) && Has(s, i)
    ensures CanAckEvent(c, s, s.batch, i) <==> !s.stop && !s.deadline && Ackable(s.aborted, s.tasks[i])
  {
    RejectionsRun(c, Begin(c), before, s);
    if OnTheWay(s, i) {
      var steps, t := AckReached(c, s, i);
    } else {
      forall steps, t | RunsTo(c, s, steps, t) ensures !LateAckOf(s, t, s.batch, i) {
        ClosedRun(c, s, steps, t, s.batch, i);
      }
    }
  }

  /** A batch deadline, and a first abort, wake every running handler: each can decide at once, timed out or aborted. */
  lemma HandlersWake(c: Config, s: State, step: Step, i: nat)
    requires Enabled(s, step) && (step.DeadlineFires? || (step.AbortHandlers? && !s.aborted))
    requires Has(s, i) && s.tasks[i].Handling?
    ensures var t := Next(c, s, step);
      && (t.deadline || t.aborted) && Enabled(t, Decide(i))
      && var d := Next(c, t, Decide(i)).tasks[i];
         d.Decided? && d.outcome == if s.tasks[i].timedOut then OutcomeTimeout else OutcomeAborted
  {
    assert Rejected(s.tasks)[i] == if s.tasks[i].timedOut then s.tasks[i] else s.tasks[i].(rejected := true);
  }

  /** A decision of the handler's own result precedes every abort. */
  lemma DecidedBeforeAbort(c: Config, acts: seq<Act>, m: nat, n: nat, o: Outcome)
    requires LogOk(c, acts) && m < n < |acts| && acts[m] == AbortCall && AnyAck(acts[n])
    requires Decision(acts[n].batch, acts[n].i, o) in acts[..n] && (o.OutcomeOk? || o.OutcomeInvalid? || o.OutcomeError?)
    ensures Decision(acts[n].batch, acts[n].i, o) in acts[..m]
  {
    var d := DecidedEarlier(c, acts, n, o);
    var earlier := acts[..d];
    assert forall j :: 0 <= j < d ==> acts[j] in earlier;
    assert d < m;
    assert acts[..m][d] == acts[d];
  }

  /**
   * What still follows an abort: completions decided before it, and failures decided before it, of
   * handlers that timed out, or of events that reached no handler.
   */
  lemma AcksAfterAbort(c: Config, steps: seq<Step>, s: State, m: nat, n: nat)
    requires c.Valid() && RunsTo(c, Begin(c), steps, s)
    requires m < n < |s.acts| && s.acts[m] == AbortCall && AnyAck(s.acts[n])
    ensures var b, i := s.acts[n].batch, s.acts[n].i;
      || (s.acts[n].CompleteCall? && Decision(b, i, OutcomeOk) in s.acts[..m])
      || (s.acts[n].FailCall? && Decision(b, i, CodeOutcome(s.acts[n].code)) in s.acts[..m])
      || (s.acts[n] == FailCall(b, i, DependencyUnavailable) && TimedOut(b, i) in s.acts[..n])
      || (s.acts[n] == FailCall(b, i, InvalidEvent) && HandlerCall(b, i) !in s.acts[..n])
  {
    BeginGood(c);
    RunGood(c, Begin(c), steps, s);
    ActAt(c, s.acts, n);
    if s.acts[n].CompleteCall? {
      DecidedBeforeAbort(c, s.acts, m, n, OutcomeOk);
    } else {
      FailuresAreEarned(c, steps, s, n);
      match s.acts[n].code
      case HandlerFailed => DecidedBeforeAbort(c, s.acts, m, n, OutcomeError);
      case InvalidEvent =>
        if HandlerCall(s.acts[n].batch, s.acts[n].i) in s.acts[..n] { DecidedBeforeAbort(c, s.acts, m, n, OutcomeInvalid); }
      case DependencyUnavailable =>
    }
  }

  // ---- One run in which a handler called after the abort times out. ----

  const LONE: Item := Item(true, None, true)

  /** A batch of one event, claimed after an abort. */
  function ClaimedAfterAbort(c: Config): State {
    State(false, true, false, Working, c.poll, 0, 1, [Fresh(LONE)], [ClaimCall, AbortCall, ClaimOk, BatchStart(1, [LONE])])
  }

  lemma ReachClaimedAfterAbort(c: Config)
    requires c.Valid()
    ensures RunsTo(c, Begin(c), [Start, AbortHandlers, ClaimReturns([LONE])], ClaimedAfterAbort(c))
  {
    var s1 := Next(c, Begin(c), Start);
    var s2 := Next(c, s1, AbortHandlers);
    assert s2.acts == [ClaimCall, AbortCall];
    var s3 := Next(c, s2, ClaimReturns([LONE]));
    assert s3.tasks == [Fresh(LONE)] && s3.acts == [ClaimCall, AbortCall, ClaimOk, BatchStart(1, [LONE])];
    assert s3 == ClaimedAfterAbort(c);
    assert RunsTo(c, s3, [], s3);
    OneStep(c, s2, ClaimReturns([LONE]), [], s3);
    OneStep(c, s1, AbortHandlers, [ClaimReturns([LONE])] + [], s3);
    OneStep(c, Begin(c), Start, [AbortHandlers] + ([ClaimReturns([LONE])] + []), s3);
    assert [Start] + ([AbortHandlers] + ([ClaimReturns([LONE])] + [])) == [Start, AbortHandlers, ClaimReturns([LONE])];
  }

  /** An abort before dispatch, a handler that times out, and no stop: the late failure is acknowledged. */
  lemma AbortedBatchCanStillFail(c: Config) returns (steps: seq<Step>, s: State)
    requires c.Valid()
    ensures RunsTo(c, Begin(c), steps, s)
    ensures exists m, n :: 0 <= m < n < |s.acts| && s.acts[m] == AbortCall && s.acts[n].FailCall?
  {
    var second;
    second, s := LateFailure(c);
    ReachClaimedAfterAbort(c);
    Join(c, Begin(c), [Start, AbortHandlers, ClaimReturns([LONE])], ClaimedAfterAbort(c), second, s);
    steps := [Start, AbortHandlers, ClaimReturns([LONE])] + second;
    assert s.acts[1] == AbortCall && s.acts[7].FailCall?;
  }

  lemma LateFailure(c: Config) returns (steps: seq<Step>, s: State)
    requires c.Valid()
    ensures RunsTo(c, ClaimedAfterAbort(c), steps, s)
    ensures |s.acts| == 8 && s.acts[1] == AbortCall && s.acts[7] == FailCall(1, 0, DependencyUnavailable)
  {
    var s3 := ClaimedAfterAbort(c);
    var s4 := Next(c, s3, StartTask(0, 0));
    assert s4.tasks == [Handling(LONE, None, false, false)];
    var s5 := Next(c, s4, TimerFires(0));
    assert s5.tasks == [Handling(LONE, None, true, false)];
    var s6 := Next(c, s5, Decide(0));
    assert s6.tasks == [Task.Decided(LONE, OutcomeTimeout)];
    s := Next(c, s6, Step.Act(0));
    assert RunsTo(c, s, [], s);
    OneStep(c, s6, Step.Act(0), [], s);
    OneStep(c, s5, Decide(0), [Step.Act(0)] + [], s);
    OneStep(c, s4, TimerFires(0), [Decide(0)] + ([Step.Act(0)] + []), s);
    steps := [StartTask(0, 0)] + ([TimerFires(0)] + ([Decide(0)] + ([Step.Act(0)] + [])));
    OneStep(c, s3, StartTask(0, 0), [TimerFires(0)] + ([Decide(0)] + ([Step.Act(0)] + [])), s);
  }
}
