/**
 * The notification worker as steps between awaits: claims, concurrent dispatch of a whole batch,
 * handlers that finish, throw, hang or time out, acknowledgements, and stop, abort and deadline
 * requests arriving at any point. `acts` is the log of everything that happened.
 */
module WorkerLoop {
  import opened Prelude
  import Backoff

  datatype HandlerResult = Returned | ThrewInvalid | ThrewOther
  datatype Outcome = OutcomeOk | OutcomeInvalid | OutcomeError | OutcomeTimeout | OutcomeAborted
  datatype Code = InvalidEvent | HandlerFailed | DependencyUnavailable

  /** A claimed event: whether it validates and has a handler, its lease, and whether it can be named for a failure. */
  datatype Item = Item(valid: bool, leaseUntil: Option<int>, named: bool)

  datatype Task =
    | Fresh(item: Item)
    | Handling(item: Item, result: Option<HandlerResult>, timedOut: bool, rejected: bool)
    | Decided(item: Item, outcome: Outcome)
    | Acking
    | Finished

  datatype Pc = Unstarted | Claiming | Sleeping | Working | Ended

  datatype Act =
    | StopCall
    | AbortCall
    | ClaimCall
    | ClaimFailed
    | ClaimOk
    | BatchStart(batch: nat, items: seq<Item>)
    | Deadline(batch: nat)
    | HandlerCall(batch: nat, i: nat)
    | HandlerDone(batch: nat, i: nat, result: HandlerResult)
    | TimedOut(batch: nat, i: nat)
    | Decision(batch: nat, i: nat, outcome: Outcome)
    | CompleteCall(batch: nat, i: nat)
    | FailCall(batch: nat, i: nat, code: Code)
    | Settled(batch: nat, i: nat)
    | SleepCall(ms: nat)

  datatype Config = Config(poll: nat, idleMax: nat, maxErrors: nat) {
    predicate Valid() { 1 <= poll <= idleMax && 1 <= maxErrors <= 1000 }
  }

  datatype State = State(
    stop: bool, aborted: bool, deadline: bool, pc: Pc, backoff: nat, errors: nat,
    batch: nat, tasks: seq<Task>, acts: seq<Act>)

  datatype Step =
    | Start
    | ClaimReturns(items: seq<Item>)
    | ClaimRejects
    | Wake
    | StartTask(i: nat, now: int)
    | HandlerSettles(i: nat, result: HandlerResult)
    | TimerFires(i: nat)
    | Decide(i: nat)
    | Act(i: nat)
    | AckReturns(i: nat)
    | BatchSettles
    | DeadlineFires
    | RequestStop
    | AbortHandlers

  function Begin(c: Config): State { State(false, false, false, Unstarted, c.poll, 0, 0, [], []) }

  predicate Has(s: State, i: nat) { s.pc.Working? && i < |s.tasks| }

  /** The race of `#invoke` is undecided; once it is decided, no timer runs before its continuation does. */
  predicate Pending(t: Task)
    requires t.Handling?
  {
    t.result.None? && !t.timedOut && !t.rejected
  }

  predicate Enabled(s: State, step: Step) {
    match step
    case Start => s.pc.Unstarted?
    case ClaimReturns(_) => s.pc.Claiming?
    case ClaimRejects => s.pc.Claiming?
    case Wake => s.pc.Sleeping?
    case StartTask(i, _) => Has(s, i) && s.tasks[i].Fresh?
    case HandlerSettles(i, _) => Has(s, i) && s.tasks[i].Handling? && s.tasks[i].result.None?
    case TimerFires(i) => Has(s, i) && s.tasks[i].Handling? && Pending(s.tasks[i])
    case Decide(i) =>
      Has(s, i) && s.tasks[i].Handling? && (s.tasks[i].result.Some? || s.tasks[i].timedOut || s.tasks[i].rejected)
    case Act(i) => Has(s, i) && s.tasks[i].Decided?
    case AckReturns(i) => Has(s, i) && s.tasks[i].Acking?
    case BatchSettles => s.pc.Working? && forall i :: 0 <= i < |s.tasks| ==> s.tasks[i].Finished?
    case DeadlineFires => s.pc.Working? && !s.deadline
    case RequestStop => true
    case AbortHandlers => true
  }

  function Log(s: State, a: Act): State { s.(acts := s.acts + [a]) }

  /** `while (!stopRequested)`, then the next claim. */
  function LoopHead(s: State): State { if s.stop then s.(pc := Ended) else Log(s.(pc := Claiming), ClaimCall) }

  function Sleep(s: State): State { Log(s.(pc := Sleeping), SleepCall(s.backoff)) }

  function SetTask(s: State, i: nat, t: Task): State
    requires i < |s.tasks|
  {
    s.(tasks := s.tasks[i := t])
  }

  function Finish(s: State, i: nat): State
    requires i < |s.tasks|
  {
    Log(SetTask(s, i, Finished), Settled(s.batch, i))
  }

  function Fail(s: State, i: nat, code: Code): State
    requires i < |s.tasks|
  {
    Log(SetTask(s, i, Acking), FailCall(s.batch, i, code))
  }

  /** The start of `#processEvent`, up to its first await. */
  function Dispatch(s: State, i: nat, now: int): State
    requires i < |s.tasks| && s.tasks[i].Fresh?
  {
    var item := s.tasks[i].item;
    if !item.valid then (if s.stop || s.deadline || !item.named then Finish(s, i) else Fail(s, i, InvalidEvent))
    else if item.leaseUntil.Some? && now >= item.leaseUntil.value then Finish(s, i)
    else if s.deadline then Finish(s, i)
    else Log(SetTask(s, i, Handling(item, None, false, false)), HandlerCall(s.batch, i))
  }

  /** The end of `#invoke`: a timeout wins over an abort, and an abort over the handler's own result. */
  function OutcomeOf(s: State, t: Task): Outcome
    requires t.Handling?
  {
    if t.timedOut then OutcomeTimeout
    else if s.aborted || s.deadline then OutcomeAborted
    else
      match t.result
      case None => OutcomeAborted
      case Some(Returned) => OutcomeOk
      case Some(ThrewInvalid) => OutcomeInvalid
      case Some(ThrewOther) => OutcomeError
  }

  /** The end of `#processEvent`: nothing after a stop or a batch deadline, else one acknowledgement. */
  function Acknowledge(s: State, i: nat, outcome: Outcome): State
    requires i < |s.tasks|
  {
    if outcome.OutcomeAborted? || s.stop || s.deadline then Finish(s, i)
    else
      match outcome
      case OutcomeInvalid => Fail(s, i, InvalidEvent)
      case OutcomeTimeout => Fail(s, i, DependencyUnavailable)
      case OutcomeError => Fail(s, i, HandlerFailed)
      case _ => Log(SetTask(s, i, Acking), CompleteCall(s.batch, i))
  }

  predicate IsAcknowledgement(a: Act, b: nat, i: nat) { (a.CompleteCall? || a.FailCall?) && a.batch == b && a.i == i }

  /** An abort event reaches the handlers that are listening. */
  function Rejected(tasks: seq<Task>): seq<Task> {
    seq(|tasks|, i requires 0 <= i < |tasks| =>
      if tasks[i].Handling? && !tasks[i].timedOut then tasks[i].(rejected := true) else tasks[i])
  }

  function NewBatch(items: seq<Item>): seq<Task> { seq(|items|, i requires 0 <= i < |items| => Fresh(items[i])) }

  function Next(c: Config, s: State, step: Step): State
    requires Enabled(s, step)
  {
    match step
    case Start => LoopHead(s)
    case ClaimReturns(items) =>
      var s1 := Log(s.(errors := 0), ClaimOk);
      if s1.stop then s1.(pc := Ended)
      else if items == [] then Sleep(s1)
      else
        Log(s1.(pc := Working, backoff := c.poll, deadline := false, batch := s.batch + 1, tasks := NewBatch(items)),
            BatchStart(s.batch + 1, items))
    case ClaimRejects =>
      var s1 := Log(s.(errors := s.errors + 1), ClaimFailed);
      if s1.errors >= c.maxErrors then s1.(pc := Ended) else Sleep(s1)
    case Wake => LoopHead(s.(backoff := Backoff.Doubled(s.backoff, c.idleMax)))
    case StartTask(i, now) => Dispatch(s, i, now)
    case HandlerSettles(i, r) => Log(SetTask(s, i, s.tasks[i].(result := Some(r))), HandlerDone(s.batch, i, r))
    case TimerFires(i) => Log(SetTask(s, i, s.tasks[i].(timedOut := true)), TimedOut(s.batch, i))
    case Decide(i) =>
      var o := OutcomeOf(s, s.tasks[i]);
      Log(SetTask(s, i, Task.Decided(s.tasks[i].item, o)), Decision(s.batch, i, o))
    case Act(i) => Acknowledge(s, i, s.tasks[i].outcome)
    case AckReturns(i) => Finish(s, i)
    case BatchSettles => LoopHead(s)
    case DeadlineFires => Log(s.(deadline := true, tasks := Rejected(s.tasks)), Deadline(s.batch))
    case RequestStop => if s.stop then s else Log(s.(stop := true), StopCall)
    case AbortHandlers => Log(s.(aborted := true, tasks := if s.aborted then s.tasks else Rejected(s.tasks)), AbortCall)
  }

  // ---- The worker as it is written, one method per stretch between awaits. ----

  class Worker {
    const config: Config
    var stopRequested: bool
    var handlersAborted: bool
    var deadlinePassed: bool
    var pc: Pc
    var backoffMs: nat
    var consecutiveClaimErrors: nat
    var batch: nat
    var tasks: seq<Task>
    var acts: seq<Act>

    constructor (config: Config)
      ensures this.config == config && Now() == Begin(config)
    {
      this.config := config;
      stopRequested, handlersAborted, deadlinePassed, pc := false, false, false, Unstarted;
      backoffMs, consecutiveClaimErrors, batch, tasks, acts := config.poll, 0, 0, [], [];
    }

    function Now(): State
      reads this
    {
      State(stopRequested, handlersAborted, deadlinePassed, pc, backoffMs, consecutiveClaimErrors, batch, tasks, acts)
    }

    method ContinueLoop()
      modifies this
      ensures Now() == LoopHead(old(Now()))
    {
      if stopRequested {
        pc := Ended;
      } else {
        pc := Claiming;
        acts := acts + [ClaimCall];
      }
    }

    method StartSleeping()
      modifies this
      ensures Now() == Sleep(old(Now()))
    {
      pc := Sleeping;
      acts := acts + [SleepCall(backoffMs)];
    }

    method ClaimReturned(items: seq<Item>)
      requires Enabled(Now(), ClaimReturns(items))
      modifies this
      ensures Now() == Next(config, old(Now()), ClaimReturns(items))
      ensures consecutiveClaimErrors == 0
      ensures pc == if old(stopRequested) then Ended else if items == [] then Sleeping else Working
      ensures pc == Sleeping ==> acts == old(acts) + [ClaimOk, SleepCall(old(backoffMs))]
      ensures pc == Working ==> |tasks| == |items| && forall i :: 0 <= i < |items| ==> tasks[i] == Fresh(items[i])
    {
      consecutiveClaimErrors := 0;
      acts := acts + [ClaimOk];
      if stopRequested {
        pc := Ended;
        return;
      }
      if |items| == 0 {
        StartSleeping();
        return;
      }
      backoffMs := config.poll;
      pc, deadlinePassed, batch, tasks := Working, false, batch + 1, NewBatch(items);
      acts := acts + [BatchStart(batch, items)];
    }

    method ClaimRejected()
      requires Enabled(Now(), ClaimRejects)
      modifies this
      ensures Now() == Next(config, old(Now()), ClaimRejects)
      ensures consecutiveClaimErrors == old(consecutiveClaimErrors) + 1
      ensures pc == if consecutiveClaimErrors >= config.maxErrors then Ended else Sleeping
      ensures pc == Sleeping ==> acts == old(acts) + [ClaimFailed, SleepCall(old(backoffMs))]
    {
      consecutiveClaimErrors := consecutiveClaimErrors + 1;
      acts := acts + [ClaimFailed];
      if consecutiveClaimErrors >= config.maxErrors {
        pc := Ended;
      } else {
        StartSleeping();
      }
    }

    method SleepEnded()
      requires Enabled(Now(), Wake)
      modifies this
      ensures Now() == Next(config, old(Now()), Wake)
      ensures pc == if stopRequested then Ended else Claiming
      ensures backoffMs == (if 2 * old(backoffMs) < config.idleMax then 2 * old(backoffMs) else config.idleMax)
      ensures acts == old(acts) + (if stopRequested then [] else [ClaimCall])
    {
      backoffMs := Min(backoffMs * 2, config.idleMax);
      ContinueLoop();
    }

    method FinishTask(i: nat)
      requires i < |tasks|
      modifies this
      ensures Now() == Finish(old(Now()), i)
    {
      tasks := tasks[i := Finished];
      acts := acts + [Settled(batch, i)];
    }

    method AckFail(i: nat, code: Code)
      requires i < |tasks|
      modifies this
      ensures Now() == Fail(old(Now()), i, code)
    {
      tasks := tasks[i := Acking];
      acts := acts + [FailCall(batch, i, code)];
    }

    /** `#processEvent` up to the handler call. */
    method ProcessEvent(i: nat, now: int)
      requires Enabled(Now(), StartTask(i, now))
      modifies this
      ensures Now() == Next(config, old(Now()), StartTask(i, now))
      ensures HandlerCall(batch, i) == acts[|acts| - 1] <==>
        old(tasks[i]).item.valid && !deadlinePassed && (old(tasks[i]).item.leaseUntil.Some? ==> now < old(tasks[i]).item.leaseUntil.value)
      ensures acts[|acts| - 1] == FailCall(batch, i, InvalidEvent) <==>
        !old(tasks[i]).item.valid && old(tasks[i]).item.named && !stopRequested && !deadlinePassed
      ensures acts[|acts| - 1] in {HandlerCall(batch, i), FailCall(batch, i, InvalidEvent), Settled(batch, i)}
      ensures |acts| == |old(acts)| + 1 && old(acts) <= acts
    {
      var item := tasks[i].item;
      if !item.valid {
        if stopRequested || deadlinePassed { FinishTask(i); return; }
        if !item.named { FinishTask(i); return; }
        AckFail(i, InvalidEvent);
        return;
      }
      if item.leaseUntil.Some? && now >= item.leaseUntil.value { FinishTask(i); return; }
      if deadlinePassed { FinishTask(i); return; }
      tasks := tasks[i := Handling(item, None, false, false)];
      acts := acts + [HandlerCall(batch, i)];
    }

    /** The race of `#invoke` is over. */
    method Invoked(i: nat)
      requires Enabled(Now(), Decide(i))
      modifies this
      ensures Now() == Next(config, old(Now()), Decide(i))
      ensures |acts| == |old(acts)| + 1 && acts[|acts| - 1].Decision? && tasks[i].Decided? && acts[|acts| - 1].outcome == tasks[i].outcome
      ensures tasks[i].outcome.OutcomeTimeout? <==> old(tasks[i]).timedOut
      ensures var undisturbed := !old(tasks[i]).timedOut && !handlersAborted && !deadlinePassed;
        && (tasks[i].outcome.OutcomeOk? <==> undisturbed && old(tasks[i]).result == Some(Returned))
        && (tasks[i].outcome.OutcomeInvalid? <==> undisturbed && old(tasks[i]).result == Some(ThrewInvalid))
        && (tasks[i].outcome.OutcomeError? <==> undisturbed && old(tasks[i]).result == Some(ThrewOther))
    {
      var t := tasks[i];
      var outcome;
      if t.timedOut { outcome := OutcomeTimeout; }
      else if handlersAborted || deadlinePassed { outcome := OutcomeAborted; }
      else if t.result == Some(Returned) { outcome := OutcomeOk; }
      else if t.result == Some(ThrewInvalid) { outcome := OutcomeInvalid; }
      else if t.result == Some(ThrewOther) { outcome := OutcomeError; }
      else { outcome := OutcomeAborted; }
      tasks := tasks[i := Task.Decided(t.item, outcome)];
      acts := acts + [Decision(batch, i, outcome)];
    }

    /** `#processEvent` after the handler. */
    method AcknowledgeEvent(i: nat)
      requires Enabled(Now(), Step.Act(i))
      modifies this
      ensures Now() == Next(config, old(Now()), Step.Act(i))
      ensures |acts| == |old(acts)| + 1 && old(acts) <= acts
      ensures IsAcknowledgement(acts[|acts| - 1], batch, i) <==>
        !stopRequested && !deadlinePassed && !old(tasks[i]).outcome.OutcomeAborted?
      ensures IsAcknowledgement(acts[|acts| - 1], batch, i) ==>
        && (old(tasks[i]).outcome.OutcomeOk? ==> acts[|acts| - 1] == CompleteCall(batch, i))
        && (old(tasks[i]).outcome.OutcomeInvalid? ==> acts[|acts| - 1] == FailCall(batch, i, InvalidEvent))
        && (old(tasks[i]).outcome.OutcomeTimeout? ==> acts[|acts| - 1] == FailCall(batch, i, DependencyUnavailable))
        && (old(tasks[i]).outcome.OutcomeError? ==> acts[|acts| - 1] == FailCall(batch, i, HandlerFailed))
    {
      var outcome := tasks[i].outcome;
      if outcome == OutcomeAborted { FinishTask(i); return; }
      if stopRequested || deadlinePassed { FinishTask(i); return; }
      if outcome == OutcomeInvalid { AckFail(i, InvalidEvent); return; }
      if outcome == OutcomeTimeout { AckFail(i, DependencyUnavailable); return; }
      if outcome == OutcomeError { AckFail(i, HandlerFailed); return; }
      tasks := tasks[i := Acking];
      acts := acts + [CompleteCall(batch, i)];
    }

    method RequestStop()
      modifies this
      ensures Now() == Next(config, old(Now()), Step.RequestStop)
      ensures stopRequested && (old(stopRequested) ==> Now() == old(Now()))
    {
      if stopRequested { return; }
      stopRequested := true;
      acts := acts + [StopCall];
    }

    method Abort()
      modifies this
      ensures Now() == Next(config, old(Now()), AbortHandlers)
    {
      if !handlersAborted { tasks := Rejected(tasks); }
      handlersAborted := true;
      acts := acts + [AbortCall];
    }
  }

  ghost predicate RunsTo(c: Config, s: State, steps: seq<Step>, t: State)
    decreases |steps|
  {
    if steps == [] then s == t
    else Enabled(s, steps[0]) && RunsTo(c, Next(c, s, steps[0]), steps[1..], t)
  }

  // ---- What the log may contain. ----

  function Front(acts: seq<Act>): seq<Act> requires acts != [] { acts[..|acts| - 1] }
  function Last(acts: seq<Act>): Act requires acts != [] { acts[|acts| - 1] }

  predicate Acked(acts: seq<Act>, b: nat, i: nat) {
    || CompleteCall(b, i) in acts || FailCall(b, i, InvalidEvent) in acts
    || FailCall(b, i, HandlerFailed) in acts || FailCall(b, i, DependencyUnavailable) in acts
  }

  /** Every handler called so far, and every acknowledgement, belongs to a settled event. */
  ghost predicate AllSettled(acts: seq<Act>) {
    && (forall b: nat, i: nat :: HandlerCall(b, i) in acts ==> Settled(b, i) in acts)
    && (forall b: nat, i: nat :: Acked(acts, b, i) ==> Settled(b, i) in acts)
  }

  function SleepsSinceReset(acts: seq<Act>): nat {
    if acts == [] then 0
    else if Last(acts).BatchStart? then 0
    else SleepsSinceReset(Front(acts)) + (if Last(acts).SleepCall? then 1 else 0)
  }

  function TrailingFailures(acts: seq<Act>): nat {
    if acts == [] then 0
    else if Last(acts).ClaimOk? then 0
    else TrailingFailures(Front(acts)) + (if Last(acts).ClaimFailed? then 1 else 0)
  }

  /** The events claimed for a batch. */
  function Claimed(acts: seq<Act>, b: nat): seq<Item> {
    if acts == [] then []
    else if Last(acts).BatchStart? && Last(acts).batch == b then Last(acts).items
    else Claimed(Front(acts), b)
  }

  /** May acknowledge now: not after a stop, not after the batch's deadline, not twice. */
  predicate MayAck(before: seq<Act>, b: nat, i: nat) {
    StopCall !in before && Deadline(b) !in before && !Acked(before, b, i)
  }

  /** The handler's own result decided, before any timeout, abort or deadline; a timeout decided after it fired. */
  predicate DecisionEarned(before: seq<Act>, b: nat, i: nat, o: Outcome) {
    match o
    case OutcomeTimeout => TimedOut(b, i) in before
    case OutcomeAborted => true
    case OutcomeOk => Undisturbed(before, b, i) && HandlerDone(b, i, Returned) in before
    case OutcomeInvalid => Undisturbed(before, b, i) && HandlerDone(b, i, ThrewInvalid) in before
    case OutcomeError => Undisturbed(before, b, i) && HandlerDone(b, i, ThrewOther) in before
  }

  predicate Undisturbed(before: seq<Act>, b: nat, i: nat) {
    TimedOut(b, i) !in before && AbortCall !in before && Deadline(b) !in before
  }

  ghost predicate ActOk(c: Config, before: seq<Act>, a: Act) {
    match a
    case ClaimCall => StopCall !in before && AllSettled(before)
    case HandlerCall(b, i) =>
      && Deadline(b) !in before && HandlerCall(b, i) !in before
      && i < |Claimed(before, b)| && Claimed(before, b)[i].valid
    case HandlerDone(b, i, _) => HandlerCall(b, i) in before
    case Decision(b, i, o) => DecisionEarned(before, b, i, o)
    case CompleteCall(b, i) => MayAck(before, b, i) && Decision(b, i, OutcomeOk) in before
    case FailCall(b, i, code) =>
      MayAck(before, b, i) &&
      (match code
       case InvalidEvent => Decision(b, i, OutcomeInvalid) in before || HandlerCall(b, i) !in before
       case HandlerFailed => Decision(b, i, OutcomeError) in before
       case DependencyUnavailable => Decision(b, i, OutcomeTimeout) in before)
    case SleepCall(ms) => ms == Backoff.DelayAfter(c.poll, c.idleMax, SleepsSinceReset(before))
    case _ => true
  }

  ghost predicate LogOk(c: Config, acts: seq<Act>) {
    acts == [] || (LogOk(c, Front(acts)) && ActOk(c, Front(acts), Last(acts)))
  }
}
