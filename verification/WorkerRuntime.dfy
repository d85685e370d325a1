/**
 * The lifecycle of the worker process: bootstrap and shutdown as two activities interleaved between
 * their awaits, with initialization resolving, rejecting or hanging, repeated shutdown requests and
 * every bounded wait ending or timing out.
 */
module WorkerRuntime {
  import opened Prelude

  datatype Phase = Starting | Ready | Stopping | Stopped | Failed

  /** Where the bootstrap activity waits. */
  datatype Boot = Unborn | Initializing | Running | Closing | BootDone

  /** Where the shutdown activity waits. */
  datatype Shut = NotAsked | Draining | DrainingAborted | AwaitingBoot | ClosingToo | ShutDone

  datatype LoopCall = NoCall | StopCalled | AbortCalled

  datatype Settlement = PendingPromise | Resolved | RejectedPromise

  datatype State = State(
    phase: Phase, stopRequested: bool, poolCreated: bool, poolClosed: bool, loopBuilt: bool, loopSettled: bool,
    stoppedSettled: bool, boot: Boot, shut: Shut,
    // What the outside sees: calls of `pool.end`, calls that settle `ready` and `stopped`, the fate of `ready`.
    poolEnds: nat, readyCalls: nat, stoppedCalls: nat, ready: Settlement,
    // What the shutdown has called on the loop last.
    called: LoopCall)

  datatype Step =
    | Start(poolThrows: bool, storeThrows: bool)
    | InitResolves(loopThrows: bool)
    | InitRejects
    | RunSettles(ok: bool)
    | BootPoolClosed
    | RequestShutdown
    | DrainEnds(drained: bool)
    | AbortedDrainEnds
    | BootWaitEnds
    | ShutPoolClosed

  const BORN: State := State(Starting, false, false, false, false, false, false, Unborn, NotAsked, 0, 0, 0, PendingPromise, NoCall)

  predicate Enabled(s: State, step: Step) {
    match step
    case Start(_, _) => s.boot.Unborn?
    case InitResolves(_) => s.boot.Initializing?
    case InitRejects => s.boot.Initializing?
    case RunSettles(_) => s.boot.Running?
    case BootPoolClosed => s.boot.Closing?
    case RequestShutdown => !s.boot.Unborn?
    case DrainEnds(drained) => s.shut.Draining? && (drained ==> s.loopSettled)
    case AbortedDrainEnds => s.shut.DrainingAborted?
    case BootWaitEnds => s.shut.AwaitingBoot?
    case ShutPoolClosed => s.shut.ClosingToo?
  }

  /** The synchronous part of `closePool`. */
  function ClosePool(s: State): State {
    if s.poolClosed || !s.poolCreated then s else s.(poolClosed := true, poolEnds := s.poolEnds + 1)
  }

  function Finish(s: State): State {
    if s.stoppedSettled then s else s.(stoppedSettled := true, stoppedCalls := s.stoppedCalls + 1)
  }

  /** The `catch` of the bootstrap, then its `finally` up to the pool close. */
  function BootFails(s: State): State {
    EnterFinally(if s.phase.Starting? then SettleReady(s.(phase := Failed), RejectedPromise) else s)
  }

  function EnterFinally(s: State): State { ClosePool(s).(boot := Closing) }

  function SettleReady(s: State, how: Settlement): State {
    s.(readyCalls := s.readyCalls + 1, ready := if s.ready.PendingPromise? then how else s.ready)
  }

  function Next(s: State, step: Step): State
    requires Enabled(s, step)
  {
    match step
    case Start(poolThrows, storeThrows) =>
      if poolThrows then BootFails(s)
      else if storeThrows then BootFails(s.(poolCreated := true))
      else s.(poolCreated := true, boot := Initializing)
    case InitResolves(loopThrows) =>
      if s.stopRequested then EnterFinally(s)
      else if loopThrows then BootFails(s)
      else SettleReady(s.(loopBuilt := true, phase := Ready, boot := Running), Resolved)
    case InitRejects => BootFails(s)
    case RunSettles(ok) =>
      var s1 := s.(loopSettled := true);
      if ok then EnterFinally(if s1.phase.Ready? then s1.(phase := Stopped) else s1) else BootFails(s1)
    case BootPoolClosed => Finish(s.(boot := BootDone, phase := if s.phase.Failed? then Failed else Stopped))
    case RequestShutdown =>
      if !s.shut.NotAsked? then s
      else
        s.(stopRequested := true,
           phase := if s.phase.Starting? || s.phase.Ready? then Stopping else s.phase,
           shut := if s.loopBuilt then Draining else AwaitingBoot, called := if s.loopBuilt then StopCalled else NoCall)
    case DrainEnds(drained) => if drained then s.(shut := AwaitingBoot) else s.(shut := DrainingAborted, called := AbortCalled)
    case AbortedDrainEnds => s.(shut := AwaitingBoot)
    case BootWaitEnds => ClosePool(s).(shut := ClosingToo)
    case ShutPoolClosed => Finish(s.(shut := ShutDone, phase := if s.phase.Stopping? then Stopped else s.phase))
  }

  // ---- The runtime as it is written: closures over shared variables, one method per stretch. ----

  class Runtime {
    var phase: Phase
    var stopRequested: bool
    var poolCreated: bool
    var poolClosed: bool
    var loopBuilt: bool
    var loopSettled: bool
    var stoppedSettled: bool
    var boot: Boot
    var shut: Shut
    var poolEnds: nat
    var readyCalls: nat
    var stoppedCalls: nat
    var ready: Settlement
    var called: LoopCall

    constructor ()
      ensures Now() == BORN
    {
      phase, stopRequested, poolCreated, poolClosed, loopBuilt, loopSettled := Starting, false, false, false, false, false;
      stoppedSettled, boot, shut := false, Unborn, NotAsked;
      poolEnds, readyCalls, stoppedCalls, ready := 0, 0, 0, PendingPromise;
      called := NoCall;
    }

    function Now(): State
      reads this
    {
      State(phase, stopRequested, poolCreated, poolClosed, loopBuilt, loopSettled, stoppedSettled, boot, shut,
            poolEnds, readyCalls, stoppedCalls, ready, called)
    }

    method CloseThePool()
      modifies this
      ensures Now() == ClosePool(old(Now()))
      ensures (poolCreated ==> poolClosed) && poolEnds == old(poolEnds) + (if poolClosed && !old(poolClosed) then 1 else 0)
    {
      if poolClosed || !poolCreated { return; }
      poolClosed := true;
      poolEnds := poolEnds + 1;
    }

    method FinishAll()
      modifies this
      ensures Now() == Finish(old(Now()))
      ensures stoppedSettled && stoppedCalls == old(stoppedCalls) + (if old(stoppedSettled) then 0 else 1)
    {
      if stoppedSettled { return; }
      stoppedSettled := true;
      stoppedCalls := stoppedCalls + 1;
    }

    method CatchError()
      modifies this
      ensures Now() == BootFails(old(Now()))
      ensures ready != old(ready) || readyCalls != old(readyCalls) ==> old(phase) == Starting && phase == Failed
    {
      if phase == Starting {
        phase := Failed;
        readyCalls := readyCalls + 1;
        if ready == PendingPromise { ready := RejectedPromise; }
      }
      CloseThePool();
      boot := Closing;
    }

    method Bootstrap(poolThrows: bool, storeThrows: bool)
      requires Enabled(Now(), Start(poolThrows, storeThrows))
      modifies this
      ensures Now() == Next(old(Now()), Start(poolThrows, storeThrows))
      ensures poolThrows || storeThrows ==> boot == Closing
      ensures (poolThrows || storeThrows) && old(Now()) == BORN ==>
        phase == Failed && ready == RejectedPromise && readyCalls == 1 && poolCreated == !poolThrows && poolClosed == poolCreated
      ensures !poolThrows && !storeThrows ==>
        boot == Initializing && poolCreated && phase == old(phase) && ready == old(ready) && readyCalls == old(readyCalls)
    {
      if poolThrows { CatchError(); return; }
      poolCreated := true;
      if storeThrows { CatchError(); return; }
      boot := Initializing;
    }

    method Initialized(loopThrows: bool)
      requires Enabled(Now(), InitResolves(loopThrows))
      modifies this
      ensures Now() == Next(old(Now()), InitResolves(loopThrows))
      ensures old(stopRequested) ==> loopBuilt == old(loopBuilt) && ready == old(ready) && phase == old(phase)
      ensures !old(stopRequested) && !loopThrows ==> loopBuilt && phase == Ready && ready != PendingPromise
    {
      if stopRequested {
        CloseThePool();
        boot := Closing;
        return;
      }
      if loopThrows { CatchError(); return; }
      loopBuilt := true;
      phase := Ready;
      readyCalls := readyCalls + 1;
      if ready == PendingPromise { ready := Resolved; }
      boot := Running;
    }

    method LoopRan(ok: bool)
      requires Enabled(Now(), RunSettles(ok))
      modifies this
      ensures Now() == Next(old(Now()), RunSettles(ok))
      ensures loopSettled && boot == Closing && (poolCreated ==> poolClosed)
      ensures ok ==> ready == old(ready) && phase == if old(phase) == Ready then Stopped else old(phase)
    {
      loopSettled := true;
      if !ok { CatchError(); return; }
      if phase == Ready { phase := Stopped; }
      CloseThePool();
      boot := Closing;
    }

    method BootstrapClosed()
      requires Enabled(Now(), BootPoolClosed)
      modifies this
      ensures Now() == Next(old(Now()), BootPoolClosed)
      ensures stoppedSettled && (phase == Failed <==> old(phase) == Failed) && (phase == Failed || phase == Stopped)
    {
      boot := BootDone;
      if phase != Failed { phase := Stopped; }
      FinishAll();
    }

    method Shutdown()
      requires Enabled(Now(), RequestShutdown)
      modifies this
      ensures Now() == Next(old(Now()), RequestShutdown)
      ensures old(shut) != NotAsked ==> Now() == old(Now())
      ensures old(shut) == NotAsked ==>
        && stopRequested && poolEnds == old(poolEnds) && ready == old(ready)
        && (if old(loopBuilt) then shut == Draining && called == StopCalled else shut == AwaitingBoot && called == NoCall)
    {
      if shut != NotAsked { return; }
      stopRequested := true;
      if phase == Starting || phase == Ready { phase := Stopping; }
      called := NoCall;
      shut := AwaitingBoot;
      if loopBuilt {
        called := StopCalled;
        shut := Draining;
      }
    }

    /** The grace wait is over: a loop that has not settled is aborted and waited for again. */
    method DrainWaited(drained: bool)
      requires Enabled(Now(), DrainEnds(drained))
      modifies this
      ensures Now() == Next(old(Now()), DrainEnds(drained))
      ensures if drained then loopSettled && shut == AwaitingBoot && called == old(called)
              else shut == DrainingAborted && called == AbortCalled
      ensures poolEnds == old(poolEnds)
    {
      if drained {
        shut := AwaitingBoot;
      } else {
        called := AbortCalled;
        shut := DrainingAborted;
      }
    }

    method AbortedDrainWaited()
      requires Enabled(Now(), AbortedDrainEnds)
      modifies this
      ensures Now() == Next(old(Now()), AbortedDrainEnds)
      ensures shut == AwaitingBoot && poolEnds == old(poolEnds)
    {
      shut := AwaitingBoot;
    }

    method BootstrapAwaited()
      requires Enabled(Now(), BootWaitEnds)
      modifies this
      ensures Now() == Next(old(Now()), BootWaitEnds)
      ensures (poolCreated ==> poolClosed) && shut == ClosingToo && stoppedSettled == old(stoppedSettled)
    {
      CloseThePool();
      shut := ClosingToo;
    }

    method ShutdownClosed()
      requires Enabled(Now(), ShutPoolClosed)
      modifies this
      ensures Now() == Next(old(Now()), ShutPoolClosed)
      ensures stoppedSettled && phase != Stopping
    {
      shut := ShutDone;
      if phase == Stopping { phase := Stopped; }
      FinishAll();
    }
  }

  // ---- Runs. ----

  ghost predicate RunsTo(s: State, steps: seq<Step>, t: State)
    decreases |steps|
  {
    if steps == [] then s == t
    else Enabled(s, steps[0]) && RunsTo(Next(s, steps[0]), steps[1..], t)
  }

  predicate Inv(s: State) {
    && s.poolEnds == (if s.poolClosed then 1 else 0) && (s.poolClosed ==> s.poolCreated)
    && s.stoppedCalls == (if s.stoppedSettled then 1 else 0)
    && s.readyCalls == (if s.ready.PendingPromise? then 0 else 1)
    && (s.ready.Resolved? <==> s.loopBuilt) && (s.ready.RejectedPromise? <==> s.phase.Failed?)
    && (s.stopRequested <==> !s.shut.NotAsked?)
    && (s.phase.Starting? ==> (s.boot.Unborn? || s.boot.Initializing?) && s.shut.NotAsked?)
    && (s.boot.Unborn? ==> s == BORN)
    && (s.boot.Initializing? ==>
          !s.loopBuilt && s.poolCreated && (s.phase.Starting? <==> !s.stopRequested) && !s.phase.Ready? && !s.phase.Failed?)
    && (s.phase.Ready? ==> s.loopBuilt && (s.boot.Running? || s.boot.Closing?) && !s.stopRequested)
    && (s.phase.Stopping? ==> s.stopRequested)
    && (s.boot.Running? ==> s.loopBuilt && s.poolCreated && (s.phase.Ready? || s.stopRequested))
    && (s.boot.Closing? || s.boot.BootDone? ==> !s.phase.Starting? && (s.poolCreated ==> s.poolClosed))
    && (s.boot.Closing? ==> (s.ready.PendingPromise? ==> s.stopRequested))
    && (s.boot.BootDone? ==> s.stoppedSettled && (s.phase.Stopped? || s.phase.Failed?) && (s.ready.PendingPromise? ==> s.stopRequested))
    && (s.shut.Draining? || s.shut.DrainingAborted? ==> s.loopBuilt)
    && (s.shut.ClosingToo? || s.shut.ShutDone? ==> (s.poolCreated ==> s.poolClosed))
    && (s.shut.ShutDone? ==> s.stoppedSettled && (s.phase.Stopped? || s.phase.Failed?))
    && (s.stoppedSettled ==> s.boot.BootDone? || s.shut.ShutDone?)
  }

  /** The shutdown has come to its wait for the bootstrap. */
  predicate PastDrain(s: State) { s.shut.AwaitingBoot? || s.shut.ClosingToo? || s.shut.ShutDone? }

  predicate DrainInv(s: State) {
    && (s.called == NoCall <==> !s.loopBuilt || s.shut.NotAsked?)
    && (s.shut.DrainingAborted? ==> s.called == AbortCalled)
    && (PastDrain(s) && s.loopBuilt ==> s.loopSettled || s.called == AbortCalled)
  }

  /** A step of the bootstrap leaves the shutdown where it is. */
  predicate BootStep(step: Step) { step.Start? || EndsInit(step) || step.RunSettles? || step.BootPoolClosed? }

  lemma KeepsShut(s: State)
    ensures BootFails(s).shut == s.shut && BootFails(s).called == s.called && BootFails(s).stopRequested == s.stopRequested
    ensures BootFails(s).loopBuilt == s.loopBuilt && BootFails(s).loopSettled == s.loopSettled
  {}

  predicate LeavesShut(s: State, t: State) {
    && t.shut == s.shut && t.called == s.called && t.stopRequested == s.stopRequested
    && (s.loopSettled ==> t.loopSettled) && (s.stopRequested ==> t.loopBuilt == s.loopBuilt)
  }

  lemma ResolvesLeavesShut(s: State, loopThrows: bool)
    requires Enabled(s, InitResolves(loopThrows))
    ensures LeavesShut(s, Next(s, InitResolves(loopThrows)))
  {
    KeepsShut(s);
  }

  lemma RanLeavesShut(s: State, ok: bool)
    requires Enabled(s, RunSettles(ok))
    ensures LeavesShut(s, Next(s, RunSettles(ok)))
  {
    KeepsShut(s.(loopSettled := true));
  }

  lemma StartLeavesShut(s: State, poolThrows: bool, storeThrows: bool)
    requires Enabled(s, Start(poolThrows, storeThrows))
    ensures LeavesShut(s, Next(s, Start(poolThrows, storeThrows)))
  {
    KeepsShut(if poolThrows then s else s.(poolCreated := true));
  }

  lemma BootLeavesShut(s: State, step: Step)
    requires Enabled(s, step) && BootStep(step)
    ensures LeavesShut(s, Next(s, step))
  {
    match step
    case Start(poolThrows, storeThrows) => StartLeavesShut(s, poolThrows, storeThrows);
    case InitResolves(loopThrows) => ResolvesLeavesShut(s, loopThrows);
    case InitRejects => KeepsShut(s);
    case RunSettles(ok) => RanLeavesShut(s, ok);
    case BootPoolClosed =>
  }

  lemma DrainStep(s: State, step: Step)
    requires Inv(s) && DrainInv(s) && Enabled(s, step)
    ensures DrainInv(Next(s, step))
  {
    if BootStep(step) {
      BootLeavesShut(s, step);
    } else {
      ShutKeepsDrain(s, step);
    }
  }

  lemma ShutKeepsDrain(s: State, step: Step)
    requires Inv(s) && DrainInv(s) && Enabled(s, step) && !BootStep(step)
    ensures DrainInv(Next(s, step))
  {}

  lemma {:induction false} DrainRun(s: State, steps: seq<Step>, t: State)
    requires Inv(s) && DrainInv(s) && RunsTo(s, steps, t)
    ensures DrainInv(t)
    decreases |steps|
  {
    if steps != [] {
      NextInv(s, steps[0]);
      DrainStep(s, steps[0]);
      DrainRun(Next(s, steps[0]), steps[1..], t);
    }
  }

  lemma FailsInv(s: State)
    requires Inv(s) && (s.boot.Initializing? || s.boot.Running?)
    ensures Inv(BootFails(if s.boot.Running? then s.(loopSettled := true) else s))
  {}

  lemma StartInv(s: State, poolThrows: bool, storeThrows: bool)
    requires Inv(s) && Enabled(s, Start(poolThrows, storeThrows))
    ensures Inv(Next(s, Start(poolThrows, storeThrows)))
  {
    assert s == BORN;
  }

  lemma ResolvesInv(s: State, loopThrows: bool)
    requires Inv(s) && Enabled(s, InitResolves(loopThrows))
    ensures Inv(Next(s, InitResolves(loopThrows)))
  {
    FailsInv(s);
  }

  lemma RanInv(s: State, ok: bool)
    requires Inv(s) && Enabled(s, RunSettles(ok))
    ensures Inv(Next(s, RunSettles(ok)))
  {
    FailsInv(s);
  }

  lemma RequestInv(s: State)
    requires Inv(s) && Enabled(s, RequestShutdown)
    ensures Inv(Next(s, RequestShutdown))
  {}

  lemma ShutClosedInv(s: State)
    requires Inv(s) && Enabled(s, ShutPoolClosed)
    ensures Inv(Next(s, ShutPoolClosed))
  {}

  lemma WaitsInv(s: State, step: Step)
    requires Inv(s) && Enabled(s, step) && (step.DrainEnds? || step.AbortedDrainEnds? || step.BootWaitEnds?)
    ensures Inv(Next(s, step))
  {}

  lemma NextInv(s: State, step: Step)
    requires Inv(s) && Enabled(s, step)
    ensures Inv(Next(s, step))
  {
    match step
    case Start(poolThrows, storeThrows) => StartInv(s, poolThrows, storeThrows);
    case InitResolves(loopThrows) => ResolvesInv(s, loopThrows);
    case InitRejects => FailsInv(s);
    case RunSettles(ok) => RanInv(s, ok);
    case BootPoolClosed => BootClosedInv(s);
    case RequestShutdown => RequestInv(s);
    case ShutPoolClosed => ShutClosedInv(s);
    case _ => WaitsInv(s, step);
  }

  lemma BootClosedInv(s: State)
    requires Inv(s) && Enabled(s, BootPoolClosed)
    ensures Inv(Next(s, BootPoolClosed))
  {}

  lemma {:induction false} RunInv(s: State, steps: seq<Step>, t: State)
    requires Inv(s) && RunsTo(s, steps, t)
    ensures Inv(t)
    decreases |steps|
  {
    if steps != [] {
      NextInv(s, steps[0]);
      RunInv(Next(s, steps[0]), steps[1..], t);
    }
  }

  // ---- The theorems. ----

  /** The pool end is called at most once, and exactly once by the time `stopped` settles if there is a pool. */
  lemma PoolEndsOnce(steps: seq<Step>, s: State)
    requires RunsTo(BORN, steps, s)
    ensures s.poolEnds <= 1 && (s.stoppedSettled ==> (s.poolEnds == 1 <==> s.poolCreated))
  {
    RunInv(BORN, steps, s);
  }

  /** `ready` and `stopped` are settled at most once; `ready` resolves exactly when a loop is built and rejects exactly on failure. */
  lemma PromisesSettleOnce(steps: seq<Step>, s: State)
    requires RunsTo(BORN, steps, s)
    ensures s.readyCalls <= 1 && s.stoppedCalls <= 1 && (s.stoppedCalls == 1 <==> s.stoppedSettled)
    ensures (s.ready.Resolved? <==> s.loopBuilt) && (s.ready.RejectedPromise? <==> s.phase.Failed?)
  {
    RunInv(BORN, steps, s);
  }

  lemma SafeStep(s: State, step: Step)
    requires Inv(s) && Enabled(s, step)
    ensures s.phase.Failed? || s.phase.Stopped? ==> Next(s, step).phase == s.phase
    ensures s.stopRequested ==> Next(s, step).stopRequested && (Next(s, step).loopBuilt <==> s.loopBuilt)
  {}

  lemma {:induction false} StaysFinal(s: State, steps: seq<Step>, t: State)
    requires Inv(s) && RunsTo(s, steps, t)
    ensures s.phase.Failed? || s.phase.Stopped? ==> t.phase == s.phase
    ensures s.stopRequested ==> (t.loopBuilt <==> s.loopBuilt)
    decreases |steps|
  {
    if steps != [] {
      NextInv(s, steps[0]);
      SafeStep(s, steps[0]);
      StaysFinal(Next(s, steps[0]), steps[1..], t);
    }
  }

  /** From any point of a run on: once a stop is requested no loop is ever built, and `failed` and `stopped` are final. */
  lemma TerminalIsFinal(before: seq<Step>, s: State, after: seq<Step>, t: State)
    requires RunsTo(BORN, before, s) && RunsTo(s, after, t)
    ensures s.phase.Failed? || s.phase.Stopped? ==> t.phase == s.phase
    ensures s.stopRequested ==> (t.loopBuilt <==> s.loopBuilt)
  {
    RunInv(BORN, before, s);
    StaysFinal(s, after, t);
  }

  /**
   * In every reachable state: the loop has been told to stop exactly if one is built and a shutdown was requested,
   * and the shutdown is past its drain only once the loop has settled or was aborted.
   */
  lemma ShutdownDrains(steps: seq<Step>, s: State)
    requires RunsTo(BORN, steps, s)
    ensures s.called != NoCall <==> s.loopBuilt && s.stopRequested
    ensures PastDrain(s) && s.loopBuilt ==> s.loopSettled || s.called == AbortCalled
  {
    RunInv(BORN, steps, s);
    DrainRun(BORN, steps, s);
  }

  /** The steps hold a drain that ended well, or one that timed out and then the drain of the aborted loop. */
  predicate Drained(steps: seq<Step>) {
    && steps != []
    && (steps[0] == DrainEnds(true) || (steps[0] == DrainEnds(false) && AbortedDrainEnds in steps[1..])
        || (!steps[0].DrainEnds? && Drained(steps[1..])))
  }

  /**
   * From the first stop request on: with a loop built, the shutdown comes to its wait for the bootstrap, and so to
   * its close of the pool, only through a drain; without one it is there at once.
   */
  lemma DrainComesFirst(before: seq<Step>, s: State, after: seq<Step>, t: State)
    requires RunsTo(BORN, before, s) && !s.stopRequested && Enabled(s, RequestShutdown)
    requires RunsTo(Next(s, RequestShutdown), after, t)
    ensures if s.loopBuilt then PastDrain(t) ==> Drained(after) else PastDrain(Next(s, RequestShutdown))
  {
    RunInv(BORN, before, s);
    if s.loopBuilt && PastDrain(t) { DrainingDrains(Next(s, RequestShutdown), after, t); }
  }

  lemma {:induction false} DrainingDrains(s: State, steps: seq<Step>, t: State)
    requires s.shut.Draining? && RunsTo(s, steps, t) && PastDrain(t)
    ensures Drained(steps)
    decreases |steps|
  {
    var u := Next(s, steps[0]);
    DrainWaits(s, steps[0]);
    if steps[0] == DrainEnds(false) {
      AbortedDrains(u, steps[1..], t);
    } else if steps[0] != DrainEnds(true) {
      DrainingDrains(u, steps[1..], t);
    }
  }

  /** While it drains, only the end of the drain moves the shutdown on. */
  lemma DrainWaits(s: State, step: Step)
    requires Enabled(s, step) && (s.shut.Draining? || s.shut.DrainingAborted?)
    ensures var t := Next(s, step);
      if step == DrainEnds(false) then t.shut == DrainingAborted
      else step == DrainEnds(true) || step == AbortedDrainEnds || t.shut == s.shut
  {
    if BootStep(step) { BootLeavesShut(s, step); }
  }

  lemma {:induction false} AbortedDrains(s: State, steps: seq<Step>, t: State)
    requires s.shut.DrainingAborted? && RunsTo(s, steps, t) && PastDrain(t)
    ensures AbortedDrainEnds in steps
    decreases |steps|
  {
    DrainWaits(s, steps[0]);
    if steps[0] != AbortedDrainEnds {
      AbortedDrains(Next(s, steps[0]), steps[1..], t);
      assert AbortedDrainEnds in steps[1..];
    }
  }

  /** The next step of the shutdown when every bounded wait it makes times out. */
  function TimeoutStep(s: State): Option<Step> {
    match s.shut
    case Draining => Some(DrainEnds(false))
    case DrainingAborted => Some(AbortedDrainEnds)
    case AwaitingBoot => Some(BootWaitEnds)
    case ClosingToo => Some(ShutPoolClosed)
    case _ => None
  }

  function TimeoutsLeft(s: State): nat {
    match s.shut case Draining => 4 case DrainingAborted => 3 case AwaitingBoot => 2 case ClosingToo => 1 case _ => 0
  }

  lemma {:induction false} TimeoutsSettle(s: State) returns (steps: seq<Step>, t: State)
    requires Inv(s) && s.stopRequested
    ensures RunsTo(s, steps, t) && |steps| == TimeoutsLeft(s) <= 4 && t.stoppedSettled && t.boot == s.boot
    ensures (t.phase.Stopped? || t.phase.Failed?) && (t.poolEnds == 1 <==> t.poolCreated)
    decreases TimeoutsLeft(s)
  {
    match TimeoutStep(s)
    case None =>
      steps, t := [], s;
    case Some(step) =>
      NextInv(s, step);
      var rest, u := TimeoutsSettle(Next(s, step));
      steps, t := [step] + rest, u;
      assert steps[1..] == rest;
  }

  /** A requested shutdown settles by its own timeouts alone, even if initialization, the loop and the pool end all hang. */
  lemma ShutdownSettlesAlone(before: seq<Step>, s: State) returns (steps: seq<Step>, t: State)
    requires RunsTo(BORN, before, s) && s.stopRequested
    ensures RunsTo(s, steps, t) && |steps| <= 4 && t.boot == s.boot && t.stoppedSettled
    ensures (t.phase.Stopped? || t.phase.Failed?) && (t.poolEnds == 1 <==> t.poolCreated)
  {
    RunInv(BORN, before, s);
    steps, t := TimeoutsSettle(s);
  }

  /** A stop during initialization leaves `ready` pending for ever, whatever initialization then does. */
  lemma EarlyStopNeverReady(before: seq<Step>, s: State, after: seq<Step>, t: State)
    requires RunsTo(BORN, before, s) && s.boot.Initializing? && s.stopRequested && RunsTo(s, after, t)
    ensures t.ready.PendingPromise?
  {
    RunInv(BORN, before, s);
    StaysPending(s, after, t);
  }

  lemma {:induction false} StaysPending(s: State, steps: seq<Step>, t: State)
    requires Inv(s) && s.stopRequested && s.ready.PendingPromise? && !s.phase.Starting? && RunsTo(s, steps, t)
    ensures t.ready.PendingPromise?
    decreases |steps|
  {
    if steps != [] {
      NextInv(s, steps[0]);
      StaysPending(Next(s, steps[0]), steps[1..], t);
    }
  }

  predicate EndsInit(step: Step) { step.InitResolves? || step.InitRejects? }

  /** A shutdown is requested before initialization settles. */
  predicate StopBeforeInit(steps: seq<Step>) {
    steps != [] && !EndsInit(steps[0]) && (steps[0].RequestShutdown? || StopBeforeInit(steps[1..]))
  }

  /** Once initialization has settled, `ready` is pending, then and for ever, exactly if a stop was requested before that. */
  lemma {:induction false} ReadyPendingIff(before: seq<Step>, s: State, after: seq<Step>, t: State)
    requires RunsTo(BORN, before, s) && s.boot.Initializing? && RunsTo(s, after, t) && !t.boot.Initializing?
    ensures t.ready.PendingPromise? <==> s.stopRequested || StopBeforeInit(after)
  {
    RunInv(BORN, before, s);
    PendingFrom(s, after, t);
  }

  lemma {:induction false} PendingFrom(s: State, after: seq<Step>, t: State)
    requires Inv(s) && s.boot.Initializing? && RunsTo(s, after, t) && !t.boot.Initializing?
    ensures t.ready.PendingPromise? <==> s.stopRequested || StopBeforeInit(after)
    decreases |after|
  {
    if s.stopRequested {
      StaysPending(s, after, t);
    } else {
      var u := Next(s, after[0]);
      NextInv(s, after[0]);
      if EndsInit(after[0]) {
        StaysSettled(u, after[1..], t);
      } else {
        PendingFrom(u, after[1..], t);
      }
    }
  }

  lemma KeepsSettled(s: State)
    ensures ClosePool(s).ready == s.ready && EnterFinally(s).ready == s.ready && Finish(s).ready == s.ready
    ensures !s.ready.PendingPromise? ==> BootFails(s).ready == s.ready && SettleReady(s, Resolved).ready == s.ready
  {
    if s.phase.Starting? {
      var t := SettleReady(s.(phase := Failed), RejectedPromise);
      assert BootFails(s) == EnterFinally(t) && EnterFinally(t).ready == t.ready;
    }
  }

  lemma SettledStep(s: State, step: Step)
    requires !s.ready.PendingPromise? && Enabled(s, step)
    ensures Next(s, step).ready == s.ready
  {
    match step
    case Start(poolThrows, _) =>
      var s1 := if poolThrows then s else s.(poolCreated := true);
      KeepsSettled(s1);
    case InitResolves(loopThrows) => SettledResolves(s, loopThrows);
    case InitRejects => KeepsSettled(s);
    case RunSettles(ok) => SettledRun(s, ok);
    case BootPoolClosed => KeepsSettled(s.(boot := BootDone, phase := if s.phase.Failed? then Failed else Stopped));
    case BootWaitEnds => KeepsSettled(s);
    case ShutPoolClosed => KeepsSettled(s.(shut := ShutDone, phase := if s.phase.Stopping? then Stopped else s.phase));
    case _ =>
  }

  lemma SettledResolves(s: State, loopThrows: bool)
    requires !s.ready.PendingPromise? && Enabled(s, InitResolves(loopThrows))
    ensures Next(s, InitResolves(loopThrows)).ready == s.ready
  {
    KeepsSettled(s);
    KeepsSettled(s.(loopBuilt := true, phase := Ready, boot := Running));
  }

  lemma SettledRun(s: State, ok: bool)
    requires !s.ready.PendingPromise? && Enabled(s, RunSettles(ok))
    ensures Next(s, RunSettles(ok)).ready == s.ready
  {
    var s1 := s.(loopSettled := true);
    KeepsSettled(s1);
    KeepsSettled(s1.(phase := Stopped));
  }

  lemma {:induction false} StaysSettled(s: State, steps: seq<Step>, t: State)
    requires !s.ready.PendingPromise? && RunsTo(s, steps, t)
    ensures t.ready == s.ready
    decreases |steps|
  {
    if steps != [] {
      SettledStep(s, steps[0]);
      StaysSettled(Next(s, steps[0]), steps[1..], t);
    }
  }

  /** `ready` is pending in every continuation. */
  ghost predicate NeverReady(s: State) { forall after, t :: RunsTo(s, after, t) ==> t.ready.PendingPromise? }

  /** During initialization, `ready` stays pending in every continuation if and only if a stop has been requested. */
  lemma NeverReadyIff(before: seq<Step>, s: State)
    requires RunsTo(BORN, before, s) && s.boot.Initializing?
    ensures NeverReady(s) <==> s.stopRequested
  {
    RunInv(BORN, before, s);
    if s.stopRequested {
      forall after, t | RunsTo(s, after, t) ensures t.ready.PendingPromise? { EarlyStopNeverReady(before, s, after, t); }
    } else {
      InitCanResolve(s);
      var after, t := [InitResolves(false)], Next(s, InitResolves(false));
      assert RunsTo(s, after, t) && !t.ready.PendingPromise?;
      assert !NeverReady(s);
    }
  }

  lemma InitCanResolve(s: State)
    requires Inv(s) && s.boot.Initializing? && !s.stopRequested
    ensures RunsTo(s, [InitResolves(false)], Next(s, InitResolves(false))) && Next(s, InitResolves(false)).ready.Resolved?
  {
    var u := Next(s, InitResolves(false));
    assert RunsTo(u, [], u) && [InitResolves(false)][1..] == [];
  }

  /** The shutdown's own steps in a run, each the end of one of its bounded waits. */
  function OwnSteps(steps: seq<Step>): nat {
    if steps == [] then 0 else (if ShutdownStep(steps[0]) then 1 else 0) + OwnSteps(steps[1..])
  }

  predicate ShutdownStep(step: Step) { step.DrainEnds? || step.AbortedDrainEnds? || step.BootWaitEnds? || step.ShutPoolClosed? }

  lemma OwnStep(s: State, step: Step)
    requires Inv(s) && s.stopRequested && Enabled(s, step)
    ensures Next(s, step).stopRequested
    ensures (if ShutdownStep(step) then 1 else 0) + TimeoutsLeft(Next(s, step)) <= TimeoutsLeft(s)
  {}

  lemma {:induction false} OwnStepsCount(s: State, steps: seq<Step>, t: State)
    requires Inv(s) && s.stopRequested && RunsTo(s, steps, t)
    ensures t.stopRequested && OwnSteps(steps) + TimeoutsLeft(t) <= TimeoutsLeft(s)
    decreases |steps|
  {
    if steps != [] {
      NextInv(s, steps[0]);
      OwnStep(s, steps[0]);
      OwnStepsCount(Next(s, steps[0]), steps[1..], t);
    }
  }

  /**
   * Once a stop is requested, in every run and however the bootstrap interleaves: the shutdown takes
   * at most four steps of its own; while it has not finished, its next wait can end by timing out;
   * and when it has finished, `stopped` has settled, the state is final and the pool is ended.
   */
  lemma ShutdownAlwaysSettles(before: seq<Step>, s: State, after: seq<Step>, t: State)
    requires RunsTo(BORN, before, s) && s.stopRequested && RunsTo(s, after, t)
    ensures OwnSteps(after) + TimeoutsLeft(t) <= TimeoutsLeft(s) <= 4
    ensures TimeoutsLeft(t) > 0 ==> TimeoutStep(t).Some? && Enabled(t, TimeoutStep(t).value)
    ensures TimeoutsLeft(t) == 0 ==>
      t.stoppedSettled && (t.phase.Stopped? || t.phase.Failed?) && (t.poolEnds == 1 <==> t.poolCreated)
  {
    RunInv(BORN, before, s);
    RunInv(s, after, t);
    OwnStepsCount(s, after, t);
  }
}
