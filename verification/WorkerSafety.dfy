/** What every run of the notification worker guarantees about its claims and acknowledgements. */
module WorkerSafety {
  import opened Prelude
  import opened WorkerLoop
  import Backoff

  /** An event whose handler was called or which was acknowledged, and which has not settled. */
  predicate InFlight(acts: seq<Act>, b: nat, i: nat) {
    (HandlerCall(b, i) in acts || Acked(acts, b, i)) && Settled(b, i) !in acts
  }

  /** The batch an act belongs to. */
  function BatchOf(a: Act): nat {
    match a
    case BatchStart(b, _) => b
    case Deadline(b) => b
    case HandlerCall(b, _) => b
    case HandlerDone(b, _, _) => b
    case TimedOut(b, _) => b
    case Decision(b, _, _) => b
    case CompleteCall(b, _) => b
    case FailCall(b, _, _) => b
    case Settled(b, _) => b
    case _ => 0
  }

  /** What the log says about one event, for the state its task is in. */
  predicate TaskOk(acts: seq<Act>, b: nat, i: nat, t: Task) {
    match t
    case Fresh(_) => HandlerCall(b, i) !in acts && !Acked(acts, b, i) && TimedOut(b, i) !in acts && Settled(b, i) !in acts
    case Handling(item, result, timedOut, _) =>
      && HandlerCall(b, i) in acts && !Acked(acts, b, i) && Settled(b, i) !in acts
      && (result.Some? ==> HandlerDone(b, i, result.value) in acts) && (timedOut <==> TimedOut(b, i) in acts)
    case Decided(item, o) =>
      HandlerCall(b, i) in acts && Decision(b, i, o) in acts && !Acked(acts, b, i) && Settled(b, i) !in acts
    case Acking => true
    case Finished => Settled(b, i) in acts
  }

  ghost predicate Inv(c: Config, s: State) {
    LogOk(c, s.acts) && FlagsOk(s) && FlightOk(s) && TasksOk(s) && ItemsOk(s) && CountsOk(c, s)
  }

  ghost predicate FlagsOk(s: State) {
    && (s.stop <==> StopCall in s.acts) && (s.aborted <==> AbortCall in s.acts)
    && (s.pc.Working? ==> (s.deadline <==> Deadline(s.batch) in s.acts))
    && (forall a :: a in s.acts ==> BatchOf(a) <= s.batch)
  }

  ghost predicate FlightOk(s: State) {
    forall b: nat, i: nat :: InFlight(s.acts, b, i) ==>
      s.pc.Working? && b == s.batch && i < |s.tasks| && !s.tasks[i].Fresh? && !s.tasks[i].Finished?
  }

  ghost predicate TasksOk(s: State) {
    s.pc.Working? ==> forall i :: 0 <= i < |s.tasks| ==> TaskOk(s.acts, s.batch, i, s.tasks[i])
  }

  /** A task is about the claimed event, and past its validation the event is valid. */
  predicate ItemOk(item: Item, t: Task) {
    && (t.Fresh? ==> t.item == item)
    && (t.Handling? ==> t.item == item && item.valid)
  }

  predicate ItemsOk(s: State) {
    s.pc.Working? ==>
      && |Claimed(s.acts, s.batch)| == |s.tasks|
      && forall i :: 0 <= i < |s.tasks| ==> ItemOk(Claimed(s.acts, s.batch)[i], s.tasks[i])
  }

  ghost predicate CountsOk(c: Config, s: State) {
    && s.backoff == Backoff.DelayAfter(c.poll, c.idleMax, Doublings(s))
    && s.errors == TrailingFailures(s.acts) && s.errors <= c.maxErrors && (s.errors == c.maxErrors ==> s.pc.Ended?)
  }

  /** The delay is doubled after the sleep, so a sleep under way is not counted yet. */
  function Doublings(s: State): nat {
    if s.pc.Sleeping? && SleepsSinceReset(s.acts) > 0 then SleepsSinceReset(s.acts) - 1 else SleepsSinceReset(s.acts)
  }

  lemma Snoc(acts: seq<Act>, a: Act)
    ensures acts + [a] != [] && Front(acts + [a]) == acts && Last(acts + [a]) == a
    ensures forall x :: x in acts + [a] <==> x in acts || x == a
  {}

  lemma ClaimedSnoc(acts: seq<Act>, a: Act, b: nat)
    requires a.BatchStart? ==> a.batch != b
    ensures Claimed(acts + [a], b) == Claimed(acts, b)
  {
    Snoc(acts, a);
  }

  /** An act that is in order, of the current batch or none, that no counter counts. */
  predicate Plain(a: Act) {
    !a.SleepCall? && !a.BatchStart? && !a.ClaimFailed? && !a.ClaimOk? && !a.StopCall? && !a.AbortCall? && !a.Deadline?
  }

  lemma PlainCounts(acts: seq<Act>, a: Act)
    requires Plain(a)
    ensures SleepsSinceReset(acts + [a]) == SleepsSinceReset(acts)
    ensures TrailingFailures(acts + [a]) == TrailingFailures(acts)
  {
    Snoc(acts, a);
  }

  /** An act about one event. */
  predicate About(a: Act, b: nat, i: nat) {
    (a.HandlerCall? || a.HandlerDone? || a.TimedOut? || a.Decision? || a.CompleteCall? || a.FailCall? || a.Settled?)
    && a.batch == b && a.i == i
  }

  lemma OtherTask(acts: seq<Act>, a: Act, b: nat, i: nat, t: Task)
    requires !About(a, b, i) && TaskOk(acts, b, i, t)
    ensures TaskOk(acts + [a], b, i, t)
  {
    Snoc(acts, a);
  }

  lemma OtherFlight(acts: seq<Act>, a: Act, b: nat, i: nat)
    requires !About(a, b, i)
    ensures InFlight(acts + [a], b, i) <==> InFlight(acts, b, i)
  {
    Snoc(acts, a);
  }

  lemma FlightStep(s: State, i: nat, t: Task, a: Act)
    requires FlightOk(s) && Has(s, i) && About(a, s.batch, i) && !t.Fresh? && (t.Finished? <==> a.Settled?)
    ensures FlightOk(Log(SetTask(s, i, t), a))
  {
    var u := Log(SetTask(s, i, t), a);
    Snoc(s.acts, a);
    forall b: nat, j: nat | InFlight(u.acts, b, j)
      ensures b == u.batch && j < |u.tasks| && !u.tasks[j].Fresh? && !u.tasks[j].Finished?
    {
      if b != s.batch || j != i { OtherFlight(s.acts, a, b, j); }
    }
  }

  lemma TasksStep(s: State, i: nat, t: Task, a: Act)
    requires FlightOk(s) && TasksOk(s) && Has(s, i) && About(a, s.batch, i)
    requires TaskOk(s.acts + [a], s.batch, i, t) && !t.Fresh? && (t.Finished? <==> a.Settled?)
    ensures FlightOk(Log(SetTask(s, i, t), a)) && TasksOk(Log(SetTask(s, i, t), a))
  {
    var u := Log(SetTask(s, i, t), a);
    FlightStep(s, i, t, a);
    forall j | 0 <= j < |u.tasks| ensures TaskOk(u.acts, u.batch, j, u.tasks[j]) {
      if j != i { OtherTask(s.acts, a, s.batch, j, s.tasks[j]); }
    }
  }

  /** A step of one task of the current batch, with the act it logs. */
  lemma TaskStep(c: Config, s: State, i: nat, t: Task, a: Act)
    requires Inv(c, s) && Has(s, i) && About(a, s.batch, i) && ActOk(c, s.acts, a)
    requires TaskOk(s.acts + [a], s.batch, i, t) && !t.Fresh? && (t.Finished? <==> a.Settled?)
    requires ItemOk(Claimed(s.acts, s.batch)[i], t)
    ensures Inv(c, Log(SetTask(s, i, t), a))
  {
    var u := Log(SetTask(s, i, t), a);
    Snoc(s.acts, a);
    TasksStep(s, i, t, a);
    TaskItems(s, i, t, a);
    TaskFlags(s, u, a);
    TaskCounts(c, s, u, a);
  }

  lemma TaskItems(s: State, i: nat, t: Task, a: Act)
    requires ItemsOk(s) && Has(s, i) && About(a, s.batch, i) && ItemOk(Claimed(s.acts, s.batch)[i], t)
    ensures ItemsOk(Log(SetTask(s, i, t), a))
  {
    ClaimedSnoc(s.acts, a, s.batch);
  }

  lemma TaskFlags(s: State, u: State, a: Act)
    requires FlagsOk(s) && Plain(a) && BatchOf(a) <= s.batch
    requires u == s.(tasks := u.tasks, acts := s.acts + [a])
    ensures FlagsOk(u)
  {
    Snoc(s.acts, a);
  }

  lemma TaskCounts(c: Config, s: State, u: State, a: Act)
    requires CountsOk(c, s) && Plain(a) && u == s.(tasks := u.tasks, acts := s.acts + [a])
    ensures CountsOk(c, u)
  {
    PlainCounts(s.acts, a);
    assert u.acts == s.acts + [a] && u.pc == s.pc && u.backoff == s.backoff && u.errors == s.errors;
    assert Doublings(u) == Doublings(s);
  }

  lemma DispatchInv(c: Config, s: State, i: nat, now: int)
    requires Inv(c, s) && Has(s, i) && s.tasks[i].Fresh?
    ensures Inv(c, Dispatch(s, i, now))
  {
    var item := s.tasks[i].item;
    assert TaskOk(s.acts, s.batch, i, s.tasks[i]);
    if !item.valid && !s.stop && !s.deadline && item.named {
      InvalidInv(c, s, i);
    } else if !item.valid || (item.leaseUntil.Some? && now >= item.leaseUntil.value) || s.deadline {
      FinishInv(c, s, i);
    } else {
      CallInv(c, s, i);
    }
  }

  lemma InvalidInv(c: Config, s: State, i: nat)
    requires Inv(c, s) && Has(s, i) && s.tasks[i].Fresh? && !s.stop && !s.deadline
    ensures Inv(c, Fail(s, i, InvalidEvent))
  {
    assert TaskOk(s.acts, s.batch, i, s.tasks[i]);
    Snoc(s.acts, FailCall(s.batch, i, InvalidEvent));
    TaskStep(c, s, i, Acking, FailCall(s.batch, i, InvalidEvent));
  }

  lemma CallInv(c: Config, s: State, i: nat)
    requires Inv(c, s) && Has(s, i) && s.tasks[i].Fresh? && s.tasks[i].item.valid && !s.deadline
    ensures Inv(c, Log(SetTask(s, i, Handling(s.tasks[i].item, None, false, false)), HandlerCall(s.batch, i)))
  {
    assert TaskOk(s.acts, s.batch, i, s.tasks[i]);
    Snoc(s.acts, HandlerCall(s.batch, i));
    TaskStep(c, s, i, Handling(s.tasks[i].item, None, false, false), HandlerCall(s.batch, i));
  }

  lemma FinishInv(c: Config, s: State, i: nat)
    requires Inv(c, s) && Has(s, i)
    ensures Inv(c, Finish(s, i))
  {
    Snoc(s.acts, Settled(s.batch, i));
    TaskStep(c, s, i, Finished, Settled(s.batch, i));
  }

  lemma HandlerInv(c: Config, s: State, i: nat, a: Act, t: Task)
    requires Inv(c, s) && Has(s, i) && s.tasks[i].Handling?
    requires (exists r :: a == HandlerDone(s.batch, i, r) && t == s.tasks[i].(result := Some(r)))
      || (a == TimedOut(s.batch, i) && t == s.tasks[i].(timedOut := true))
    ensures Inv(c, Log(SetTask(s, i, t), a))
  {
    assert TaskOk(s.acts, s.batch, i, s.tasks[i]);
    Snoc(s.acts, a);
    TaskStep(c, s, i, t, a);
  }

  lemma DecideInv(c: Config, s: State, i: nat)
    requires Inv(c, s) && Enabled(s, Decide(i))
    ensures Inv(c, Next(c, s, Decide(i)))
  {
    var t := s.tasks[i];
    var o := OutcomeOf(s, t);
    assert TaskOk(s.acts, s.batch, i, t);
    DecisionOk(c, s, i);
    var u := s.acts + [Decision(s.batch, i, o)];
    Snoc(s.acts, Decision(s.batch, i, o));
    assert TaskOk(u, s.batch, i, Task.Decided(t.item, o));
    TaskStep(c, s, i, Task.Decided(t.item, o), Decision(s.batch, i, o));
  }

  lemma DecisionOk(c: Config, s: State, i: nat)
    requires FlagsOk(s) && Enabled(s, Decide(i)) && TaskOk(s.acts, s.batch, i, s.tasks[i])
    ensures ActOk(c, s.acts, Decision(s.batch, i, OutcomeOf(s, s.tasks[i])))
  {}

  lemma ActInv(c: Config, s: State, i: nat)
    requires Inv(c, s) && Enabled(s, Step.Act(i))
    ensures Inv(c, Next(c, s, Step.Act(i)))
  {
    var o := s.tasks[i].outcome;
    assert TaskOk(s.acts, s.batch, i, s.tasks[i]);
    if o.OutcomeAborted? || s.stop || s.deadline {
      FinishInv(c, s, i);
    } else {
      var a := match o
        case OutcomeInvalid => FailCall(s.batch, i, InvalidEvent)
        case OutcomeTimeout => FailCall(s.batch, i, DependencyUnavailable)
        case OutcomeError => FailCall(s.batch, i, HandlerFailed)
        case _ => CompleteCall(s.batch, i);
      Snoc(s.acts, a);
      TaskStep(c, s, i, Acking, a);
    }
  }

  lemma AckInv(c: Config, s: State, i: nat)
    requires Inv(c, s) && Enabled(s, AckReturns(i))
    ensures Inv(c, Next(c, s, AckReturns(i)))
  {
    FinishInv(c, s, i);
  }

  // ---- Requests. ----

  function RequestAct(s: State, step: Step): Act {
    if step.RequestStop? then StopCall else if step.AbortHandlers? then AbortCall else Deadline(s.batch)
  }

  lemma RequestTasks(c: Config, s: State, step: Step)
    requires FlightOk(s) && TasksOk(s) && Enabled(s, step) && (step.RequestStop? || step.AbortHandlers? || step.DeadlineFires?)
    ensures FlightOk(Next(c, s, step)) && TasksOk(Next(c, s, step))
  {
    var u, a := Next(c, s, step), RequestAct(s, step);
    if u != s {
      forall b: nat, j: nat | InFlight(u.acts, b, j)
        ensures u.pc.Working? && b == u.batch && j < |u.tasks| && !u.tasks[j].Fresh? && !u.tasks[j].Finished?
      {
        OtherFlight(s.acts, a, b, j);
      }
      if u.pc.Working? {
        forall j | 0 <= j < |u.tasks| ensures TaskOk(u.acts, u.batch, j, u.tasks[j]) {
          OtherTask(s.acts, a, s.batch, j, s.tasks[j]);
        }
      }
    }
  }

  lemma RequestFlags(c: Config, s: State, step: Step)
    requires FlagsOk(s) && Enabled(s, step) && (step.RequestStop? || step.AbortHandlers? || step.DeadlineFires?)
    ensures FlagsOk(Next(c, s, step))
  {
    Snoc(s.acts, RequestAct(s, step));
  }

  lemma RequestCounts(c: Config, s: State, u: State, a: Act)
    requires CountsOk(c, s) && (a.StopCall? || a.AbortCall? || a.Deadline?)
    requires u.acts == s.acts + [a] && u.pc == s.pc && u.backoff == s.backoff && u.errors == s.errors
    ensures CountsOk(c, u)
  {
    Snoc(s.acts, a);
    assert SleepsSinceReset(u.acts) == SleepsSinceReset(s.acts) && Doublings(u) == Doublings(s);
  }

  lemma RequestItems(c: Config, s: State, step: Step)
    requires ItemsOk(s) && Enabled(s, step) && (step.RequestStop? || step.AbortHandlers? || step.DeadlineFires?)
    ensures ItemsOk(Next(c, s, step))
  {
    ClaimedSnoc(s.acts, RequestAct(s, step), s.batch);
  }

  lemma RequestInv(c: Config, s: State, step: Step)
    requires Inv(c, s) && Enabled(s, step) && (step.RequestStop? || step.AbortHandlers? || step.DeadlineFires?)
    ensures Inv(c, Next(c, s, step))
  {
    RequestTasks(c, s, step);
    RequestItems(c, s, step);
    RequestFlags(c, s, step);
    if Next(c, s, step) != s {
      Snoc(s.acts, RequestAct(s, step));
      RequestCounts(c, s, Next(c, s, step), RequestAct(s, step));
    }
  }

  // ---- The outer loop. ----

  /** Nothing is in flight outside a batch, and at its end. */
  predicate Quiet(s: State) { s.pc.Working? ==> forall i :: 0 <= i < |s.tasks| ==> s.tasks[i].Finished? }

  lemma LoopHeadInv(c: Config, s: State, u: State)
    requires Inv(c, s) && Quiet(s) && !s.pc.Ended? && u == s.(backoff := u.backoff)
    requires u.backoff == Backoff.DelayAfter(c.poll, c.idleMax, SleepsSinceReset(s.acts))
    ensures Inv(c, LoopHead(u))
  {
    Snoc(s.acts, ClaimCall);
    PlainCounts(s.acts, ClaimCall);
    QuietIsSettled(c, s);
    var v := LoopHead(u);
    forall b: nat, j: nat | InFlight(v.acts, b, j) ensures false { OtherFlight(s.acts, ClaimCall, b, j); }
  }

  lemma QuietIsSettled(c: Config, s: State)
    requires Inv(c, s) && Quiet(s)
    ensures AllSettled(s.acts) && forall b: nat, i: nat :: !InFlight(s.acts, b, i)
  {
    forall b: nat, i: nat | HandlerCall(b, i) in s.acts || Acked(s.acts, b, i) ensures Settled(b, i) in s.acts {
      assert !InFlight(s.acts, b, i);
    }
  }

  lemma WakeInv(c: Config, s: State)
    requires c.Valid() && Inv(c, s) && s.pc.Sleeping? && SleepsSinceReset(s.acts) > 0
    ensures Inv(c, Next(c, s, Wake))
  {
    LoopHeadInv(c, s, s.(backoff := Backoff.Doubled(s.backoff, c.idleMax)));
  }

  lemma SleepInv(c: Config, s: State)
    requires Inv(c, s) && Quiet(s) && !s.pc.Sleeping? && s.errors < c.maxErrors
    ensures Inv(c, Sleep(s)) && SleepsSinceReset(Sleep(s).acts) > 0
  {
    Snoc(s.acts, SleepCall(s.backoff));
    QuietIsSettled(c, s);
    forall b: nat, j: nat | InFlight(Sleep(s).acts, b, j) ensures false { OtherFlight(s.acts, SleepCall(s.backoff), b, j); }
  }

  lemma ClaimOkInv(c: Config, s: State)
    requires c.Valid() && Inv(c, s) && s.pc.Claiming?
    ensures Inv(c, Log(s.(errors := 0), ClaimOk)) && Inv(c, Log(s.(errors := 0, pc := Ended), ClaimOk))
  {
    var u := Log(s.(errors := 0), ClaimOk);
    Snoc(s.acts, ClaimOk);
    forall b: nat, j: nat | InFlight(u.acts, b, j) ensures false { OtherFlight(s.acts, ClaimOk, b, j); }
  }

  lemma ClaimRejectsInv(c: Config, s: State)
    requires c.Valid() && Inv(c, s) && s.pc.Claiming?
    ensures Inv(c, Next(c, s, ClaimRejects))
    ensures Next(c, s, ClaimRejects).pc.Sleeping? ==> SleepsSinceReset(Next(c, s, ClaimRejects).acts) > 0
  {
    var u := Log(s.(errors := s.errors + 1), ClaimFailed);
    FailedClaim(c, s);
    if u.errors < c.maxErrors {
      SleepInv(c, u);
      assert Next(c, s, ClaimRejects) == Sleep(u);
    } else {
      assert Next(c, s, ClaimRejects) == u.(pc := Ended);
    }
  }

  lemma FailedClaim(c: Config, s: State)
    requires c.Valid() && Inv(c, s) && s.pc.Claiming?
    ensures var u := Log(s.(errors := s.errors + 1), ClaimFailed);
      if u.errors < c.maxErrors then Inv(c, u) else Inv(c, u.(pc := Ended))
  {
    var u := Log(s.(errors := s.errors + 1), ClaimFailed);
    Snoc(s.acts, ClaimFailed);
    assert Doublings(u) == Doublings(s);
    forall b: nat, j: nat | InFlight(u.acts, b, j) ensures false { OtherFlight(s.acts, ClaimFailed, b, j); }
  }

  function BatchBegun(c: Config, s: State, items: seq<Item>): State {
    Log(s.(pc := Working, backoff := c.poll, deadline := false, batch := s.batch + 1, tasks := NewBatch(items)),
        BatchStart(s.batch + 1, items))
  }

  lemma NewBatchTasks(c: Config, s: State, items: seq<Item>)
    requires FlagsOk(s) && FlightOk(s) && s.pc.Claiming?
    ensures FlightOk(BatchBegun(c, s, items)) && TasksOk(BatchBegun(c, s, items))
  {
    var u, b1 := BatchBegun(c, s, items), s.batch + 1;
    var a := BatchStart(b1, items);
    assert u.acts == s.acts + [a] && u.batch == b1;
    forall b: nat, j: nat | InFlight(u.acts, b, j) ensures false { OtherFlight(s.acts, a, b, j); }
    forall i | 0 <= i < |u.tasks| ensures TaskOk(u.acts, b1, i, u.tasks[i]) {
      NothingYet(s.acts, b1, i, u.tasks[i]);
      OtherTask(s.acts, a, b1, i, u.tasks[i]);
    }
  }

  lemma NewBatchFlags(c: Config, s: State, items: seq<Item>)
    requires FlagsOk(s)
    ensures FlagsOk(BatchBegun(c, s, items))
  {
    Snoc(s.acts, BatchStart(s.batch + 1, items));
  }

  lemma NewBatchInv(c: Config, s: State, items: seq<Item>)
    requires c.Valid() && Inv(c, s) && s.pc.Claiming? && s.errors == 0
    ensures Inv(c, BatchBegun(c, s, items))
  {
    NewBatchTasks(c, s, items);
    NewBatchFlags(c, s, items);
    Snoc(s.acts, BatchStart(s.batch + 1, items));
  }

  lemma NothingYet(acts: seq<Act>, b: nat, i: nat, t: Task)
    requires t.Fresh? && forall a :: a in acts ==> BatchOf(a) < b
    ensures TaskOk(acts, b, i, t)
  {
    assert forall a :: About(a, b, i) ==> BatchOf(a) == b;
  }

  lemma ClaimReturnsInv(c: Config, s: State, items: seq<Item>)
    requires c.Valid() && Inv(c, s) && s.pc.Claiming?
    ensures Inv(c, Next(c, s, ClaimReturns(items)))
    ensures Next(c, s, ClaimReturns(items)).pc.Sleeping? ==> SleepsSinceReset(Next(c, s, ClaimReturns(items)).acts) > 0
  {
    var s1 := Log(s.(errors := 0), ClaimOk);
    ClaimOkInv(c, s);
    if s.stop {
      assert Next(c, s, ClaimReturns(items)) == Log(s.(errors := 0, pc := Ended), ClaimOk);
    } else if items == [] {
      SleepInv(c, s1);
      assert Next(c, s, ClaimReturns(items)) == Sleep(s1);
    } else {
      NewBatchInv(c, s1, items);
      assert Next(c, s, ClaimReturns(items)) == BatchBegun(c, s1, items);
    }
  }

  /** Everything needed to go on: the invariant, and a sleep has been logged before it is slept. */
  ghost predicate Good(c: Config, s: State) { Inv(c, s) && (s.pc.Sleeping? ==> SleepsSinceReset(s.acts) > 0) }

  predicate IsTaskStep(step: Step) {
    step.StartTask? || step.HandlerSettles? || step.TimerFires? || step.Decide? || step.Act? || step.AckReturns?
  }

  lemma TaskGood(c: Config, s: State, step: Step)
    requires Inv(c, s) && Enabled(s, step) && IsTaskStep(step)
    ensures Good(c, Next(c, s, step))
  {
    match step
    case StartTask(i, now) => DispatchInv(c, s, i, now);
    case HandlerSettles(i, r) => HandlerInv(c, s, i, HandlerDone(s.batch, i, r), s.tasks[i].(result := Some(r)));
    case TimerFires(i) => HandlerInv(c, s, i, TimedOut(s.batch, i), s.tasks[i].(timedOut := true));
    case Decide(i) => DecideInv(c, s, i);
    case Act(i) => ActInv(c, s, i);
    case AckReturns(i) => AckInv(c, s, i);
  }

  lemma RequestGood(c: Config, s: State, step: Step)
    requires Good(c, s) && Enabled(s, step) && (step.RequestStop? || step.AbortHandlers? || step.DeadlineFires?)
    ensures Good(c, Next(c, s, step))
  {
    RequestInv(c, s, step);
    Snoc(s.acts, RequestAct(s, step));
  }

  lemma NextGood(c: Config, s: State, step: Step)
    requires c.Valid() && Good(c, s) && Enabled(s, step)
    ensures Good(c, Next(c, s, step))
  {
    match step
    case Start => LoopHeadInv(c, s, s);
    case ClaimReturns(items) => ClaimReturnsInv(c, s, items);
    case ClaimRejects => ClaimRejectsInv(c, s);
    case Wake => WakeInv(c, s);
    case BatchSettles => LoopHeadInv(c, s, s);
    case _ => if IsTaskStep(step) { TaskGood(c, s, step); } else { RequestGood(c, s, step); }
  }

  lemma BeginGood(c: Config)
    requires c.Valid()
    ensures Good(c, Begin(c))
  {}

  lemma {:induction false} RunGood(c: Config, s: State, steps: seq<Step>, t: State)
    requires c.Valid() && Good(c, s) && RunsTo(c, s, steps, t)
    ensures Good(c, t)
    decreases |steps|
  {
    if steps != [] {
      NextGood(c, s, steps[0]);
      RunGood(c, Next(c, s, steps[0]), steps[1..], t);
    }
  }

  // ---- The theorems. ----

  lemma {:induction false} ActAt(c: Config, acts: seq<Act>, n: nat)
    requires LogOk(c, acts) && n < |acts|
    ensures ActOk(c, acts[..n], acts[n])
    decreases |acts|
  {
    if n == |acts| - 1 {
      assert acts[..n] == Front(acts);
    } else {
      ActAt(c, Front(acts), n);
      assert Front(acts)[..n] == acts[..n];
    }
  }

  /** Each claimed event gets at most one complete-or-fail call, and none after a stop or after its batch's deadline. */
  lemma AcksAreSafe(c: Config, steps: seq<Step>, s: State, n: nat, b: nat, i: nat)
    requires c.Valid() && RunsTo(c, Begin(c), steps, s) && n < |s.acts| && IsAcknowledgement(s.acts[n], b, i)
    ensures forall m :: 0 <= m < n ==> !IsAcknowledgement(s.acts[m], b, i) && s.acts[m] != StopCall && s.acts[m] != Deadline(b)
  {
    BeginGood(c);
    RunGood(c, Begin(c), steps, s);
    ActAt(c, s.acts, n);
    forall m | 0 <= m < n ensures !IsAcknowledgement(s.acts[m], b, i) && s.acts[m] != StopCall && s.acts[m] != Deadline(b) {
      assert s.acts[m] in s.acts[..n];
      if IsAcknowledgement(s.acts[m], b, i) { AckIsAcked(s.acts[..n], s.acts[m], b, i); }
    }
  }

  lemma AckIsAcked(acts: seq<Act>, a: Act, b: nat, i: nat)
    requires a in acts && IsAcknowledgement(a, b, i)
    ensures Acked(acts, b, i)
  {
    if a.FailCall? {
      match a.code
      case InvalidEvent =>
      case HandlerFailed =>
      case DependencyUnavailable =>
    }
  }

  /** Of a handler call: the event was claimed in that batch and is valid. */
  predicate ValidCall(acts: seq<Act>, v: nat, b: nat, i: nat) {
    v < |acts| && acts[v] == HandlerCall(b, i) && i < |Claimed(acts[..v], b)| && Claimed(acts[..v], b)[i].valid
  }

  /** A completion follows the call of a valid event's handler and its own return, decided without timeout or abort. */
  lemma CompletionsAreEarned(c: Config, steps: seq<Step>, s: State, n: nat) returns (v: nat, h: nat, d: nat)
    requires c.Valid() && RunsTo(c, Begin(c), steps, s) && n < |s.acts| && s.acts[n].CompleteCall?
    ensures v < h < d < n && ValidCall(s.acts, v, s.acts[n].batch, s.acts[n].i)
    ensures s.acts[h] == HandlerDone(s.acts[n].batch, s.acts[n].i, Returned)
    ensures s.acts[d] == Decision(s.acts[n].batch, s.acts[n].i, OutcomeOk)
    ensures forall m :: 0 <= m < d ==> s.acts[m] != TimedOut(s.acts[n].batch, s.acts[n].i) && s.acts[m] != AbortCall
  {
    BeginGood(c);
    RunGood(c, Begin(c), steps, s);
    var b, i := s.acts[n].batch, s.acts[n].i;
    ActAt(c, s.acts, n);
    d :| 0 <= d < n && s.acts[..n][d] == Decision(b, i, OutcomeOk);
    ActAt(c, s.acts, d);
    h :| 0 <= h < d && s.acts[..d][h] == HandlerDone(b, i, Returned);
    ActAt(c, s.acts, h);
    v :| 0 <= v < h && s.acts[..h][v] == HandlerCall(b, i);
    ActAt(c, s.acts, v);
    forall m | 0 <= m < d ensures s.acts[m] != TimedOut(b, i) && s.acts[m] != AbortCall {
      assert s.acts[m] in s.acts[..d];
    }
  }

  /** What a failure code reports: a rejection or a throw of the handler decided before any abort, a timeout, or no handler call. */
  predicate Reported(before: seq<Act>, b: nat, i: nat, code: Code) {
    match code
    case InvalidEvent =>
      || HandlerCall(b, i) !in before
      || (HandlerDone(b, i, ThrewInvalid) in before && Decision(b, i, OutcomeInvalid) in before)
    case HandlerFailed => HandlerDone(b, i, ThrewOther) in before && Decision(b, i, OutcomeError) in before
    case DependencyUnavailable => TimedOut(b, i) in before && Decision(b, i, OutcomeTimeout) in before
  }

  /** A failure code tells the truth: the handler threw, timed out, or rejected the event, or the event never reached one. */
  lemma FailuresAreEarned(c: Config, steps: seq<Step>, s: State, n: nat)
    requires c.Valid() && RunsTo(c, Begin(c), steps, s) && n < |s.acts| && s.acts[n].FailCall?
    ensures Reported(s.acts[..n], s.acts[n].batch, s.acts[n].i, s.acts[n].code)
  {
    BeginGood(c);
    RunGood(c, Begin(c), steps, s);
    ActAt(c, s.acts, n);
    if Decision(s.acts[n].batch, s.acts[n].i, CodeOutcome(s.acts[n].code)) in s.acts[..n] {
      var d := DecidedEarlier(c, s.acts, n, CodeOutcome(s.acts[n].code));
      assert forall x :: x in s.acts[..d] ==> x in s.acts[..n];
    }
  }

  function CodeOutcome(code: Code): Outcome {
    match code case InvalidEvent => OutcomeInvalid case HandlerFailed => OutcomeError case DependencyUnavailable => OutcomeTimeout
  }

  lemma DecidedEarlier(c: Config, acts: seq<Act>, n: nat, o: Outcome) returns (d: nat)
    requires LogOk(c, acts) && n < |acts| && (acts[n].FailCall? || acts[n].CompleteCall?)
    requires Decision(acts[n].batch, acts[n].i, o) in acts[..n]
    ensures d < n && acts[d] == Decision(acts[n].batch, acts[n].i, o)
    ensures DecisionEarned(acts[..d], acts[n].batch, acts[n].i, o) && acts[..d] <= acts[..n]
  {
    d :| 0 <= d < n && acts[..n][d] == Decision(acts[n].batch, acts[n].i, o);
    ActAt(c, acts, d);
  }

  /** No claim is issued after a stop, or before every dispatched event of the earlier batches has settled. */
  lemma ClaimsWait(c: Config, steps: seq<Step>, s: State, n: nat)
    requires c.Valid() && RunsTo(c, Begin(c), steps, s) && n < |s.acts| && s.acts[n].ClaimCall?
    ensures StopCall !in s.acts[..n] && AllSettled(s.acts[..n])
  {
    BeginGood(c);
    RunGood(c, Begin(c), steps, s);
    ActAt(c, s.acts, n);
  }

  /** Every sleep is the poll interval doubled once per sleep since the last non-empty batch, capped. */
  lemma SleepsAreCappedDoublings(c: Config, steps: seq<Step>, s: State, n: nat)
    requires c.Valid() && RunsTo(c, Begin(c), steps, s) && n < |s.acts| && s.acts[n].SleepCall?
    ensures s.acts[n].ms == Min(c.poll * Backoff.Pow2(SleepsSinceReset(s.acts[..n])), c.idleMax)
  {
    BeginGood(c);
    RunGood(c, Begin(c), steps, s);
    ActAt(c, s.acts, n);
    Backoff.DelayClosedForm(c.poll, c.idleMax, SleepsSinceReset(s.acts[..n]));
  }

  /** The error counter is the trailing run of failed claims; the loop has ended exactly when it reaches the bound. */
  lemma ClaimFailuresAreBounded(c: Config, steps: seq<Step>, s: State)
    requires c.Valid() && RunsTo(c, Begin(c), steps, s)
    ensures s.errors == TrailingFailures(s.acts) <= c.maxErrors
    ensures TrailingFailures(s.acts) == c.maxErrors ==> s.pc.Ended?
  {
    BeginGood(c);
    RunGood(c, Begin(c), steps, s);
  }

  // ---- A store that always fails. ----

  function TotalSlept(acts: seq<Act>): nat {
    if acts == [] then 0 else TotalSlept(Front(acts)) + (if Last(acts).SleepCall? then Last(acts).ms else 0)
  }

  /** The worker in its `k`-th claim when all earlier ones failed and every sleep was slept out. */
  function ClaimAfterFailures(c: Config, k: nat): State {
    if k == 0 then LoopHead(Begin(c))
    else
      var s := ClaimAfterFailures(c, k - 1);
      if !s.pc.Claiming? then s
      else
        var t := Next(c, s, ClaimRejects);
        if t.pc.Sleeping? then Next(c, t, Wake) else t
  }

  lemma FailOnce(c: Config, s: State)
    requires s.pc.Claiming? && !s.stop
    ensures var t := Next(c, s, ClaimRejects);
      if s.errors + 1 >= c.maxErrors then t.pc.Ended? && TotalSlept(t.acts) == TotalSlept(s.acts) && t.errors == s.errors + 1
      else
        var u := Next(c, t, Wake);
        && t.pc.Sleeping? && u.pc.Claiming? && !u.stop && u.errors == s.errors + 1
        && u.backoff == Backoff.Doubled(s.backoff, c.idleMax) && TotalSlept(u.acts) == TotalSlept(s.acts) + s.backoff
  {
    Snoc(s.acts, ClaimFailed);
    var failed := s.acts + [ClaimFailed];
    assert TotalSlept(failed) == TotalSlept(s.acts);
    if s.errors + 1 < c.maxErrors {
      var slept := failed + [SleepCall(s.backoff)];
      Snoc(failed, SleepCall(s.backoff));
      assert TotalSlept(slept) == TotalSlept(failed) + s.backoff;
      Snoc(slept, ClaimCall);
      assert TotalSlept(slept + [ClaimCall]) == TotalSlept(slept);
      assert Next(c, s, ClaimRejects).acts == slept;
    }
  }

  /** In its next claim after `k` failures the worker has slept the sum of the delays so far. */
  predicate HasFailed(c: Config, k: nat, s: State) {
    && s.pc.Claiming? && !s.stop && s.errors == k && s.backoff == Backoff.DelayAfter(c.poll, c.idleMax, k)
    && TotalSlept(s.acts) == Backoff.TotalDelay(c.poll, c.idleMax, k)
  }

  lemma HasFailedAgain(c: Config, k: nat, s: State)
    requires HasFailed(c, k, s) && k + 1 < c.maxErrors
    ensures Next(c, s, ClaimRejects).pc.Sleeping? && HasFailed(c, k + 1, Next(c, Next(c, s, ClaimRejects), Wake))
  {
    FailOnce(c, s);
  }

  lemma {:induction false} FailingStore(c: Config, k: nat)
    requires c.Valid() && k < c.maxErrors
    ensures HasFailed(c, k, ClaimAfterFailures(c, k))
  {
    if k == 0 {
      Snoc([], ClaimCall);
      assert [] + [ClaimCall] == [ClaimCall];
    } else {
      var s := ClaimAfterFailures(c, k - 1);
      FailingStore(c, k - 1);
      HasFailedAgain(c, k - 1, s);
      assert ClaimAfterFailures(c, k) == Next(c, Next(c, s, ClaimRejects), Wake);
    }
  }

  /** An always-failing store costs exactly the first `bound - 1` delays, then the worker has ended. */
  lemma FailingStoreTotal(c: Config)
    requires c.Valid()
    ensures var s := ClaimAfterFailures(c, c.maxErrors);
      s.pc.Ended? && s.errors == c.maxErrors && TotalSlept(s.acts) == Backoff.TotalDelay(c.poll, c.idleMax, c.maxErrors - 1)
  {
    FailingStore(c, c.maxErrors - 1);
    FailOnce(c, ClaimAfterFailures(c, c.maxErrors - 1));
  }
}
