/**
 * The settlement observation loop. The environment is a script of what each await brings: claim
 * results, lookup answers, stop and abort requests, deadlines and write replies. The loop's port
 * calls and waits are its trace, with every stop and abort request where it arrives among them; the
 * imperative loop is proved to produce the specified trace.
 */
module SettlementLoop {
  import opened Prelude
  import opened PaymentAttempts
  import Backoff

  datatype RawBinding = RawBinding(
    network: string, grantId: string, actionId: string, attemptId: string, requirementDigest: Digest, laneDigest: Digest,
    contract: string, asset: string, from: string, to: string, value: string, validAfter: string, validBefore: string,
    nonce: string)

  /** A leased attempt as the store returns it. */
  datatype Leased = Leased(org: string, raw: RawBinding, generation: string, leaseUntil: Option<int>) {
    function Id(): Key { Key(org, raw.attemptId) }
  }

  datatype HoldReason = BindingUnreadable | TransportThrew | LookupAborted | MalformedResponse | Lane(reason: string)

  datatype Exposure =
    | CommittedExposure(transferId: string, txHash: string)
    | PendingExposure(transferId: string, gateway: GatewayStatus, batchTxHash: Option<string>)
    | UnknownExposure(reason: string)

  datatype Decision = Record(observation: Observation) | Hold(reason: HoldReason)

  datatype Lookup = Lookup(answer: string)

  /** The lane's own parts: binding validation and classification; either may throw. */
  datatype Lane = Lane(
    parse: RawBinding -> Option<Binding>,
    classify: (Binding, int, Lookup) -> Option<Exposure>)

  /** Pending exposures never carry the completed status. */
  ghost predicate LaneOk(lane: Lane) {
    forall b, now, l :: lane.classify(b, now, l).Some? && lane.classify(b, now, l).value.PendingExposure? ==>
      !lane.classify(b, now, l).value.gateway.Completed?
  }

  /** `decideFromExposure`. */
  function Decide(e: Exposure): Decision {
    match e
    case CommittedExposure(transferId, txHash) => Record(Observation(Committed, transferId, Completed, Some(txHash)))
    case PendingExposure(transferId, gateway, batchTxHash) => Record(Observation(Pending, transferId, gateway, batchTxHash))
    case UnknownExposure(reason) => Hold(HoldReason.Lane(reason))
  }

  /** A decision records exactly for a positive exposure, and what it records is in the recorder's closed input. */
  lemma DecisionsArePositive(e: Exposure)
    requires e.PendingExposure? ==> !e.gateway.Completed?
    ensures Decide(e).Record? <==> !e.UnknownExposure?
    ensures Decide(e).Record? ==> Recordable(Decide(e).observation) && Decide(e).observation.transferId == e.transferId
    ensures e.CommittedExposure? ==> Decide(e) == Record(Observation(Committed, e.transferId, Completed, Some(e.txHash)))
    ensures e.PendingExposure? ==> Decide(e) == Record(Observation(Pending, e.transferId, e.gateway, e.batchTxHash))
  {}

  datatype Reply = Stale | Applied | Threw

  /** What the awaits of one attempt bring. */
  datatype AttemptScript = AttemptScript(
    deadlineBefore: bool, now: int, lookup: Option<Lookup>, timedOut: bool, abortDuring: bool, deadlineDuring: bool,
    abortBeforeRecord: bool, reply: Reply, abortDuringWrite: bool, stopDuring: bool, stopDuringWrite: bool) {
    /** The question's signal fired: its own timeout, an abort, or the batch deadline. */
    predicate Cut() { timedOut || abortDuring || deadlineDuring }
  }

  datatype ClaimAnswer = ClaimFails | Claims(leased: seq<Leased>)

  /** What one turn of the outer loop brings. */
  datatype Turn = Turn(
    claim: ClaimAnswer, stopDuringClaim: bool, abortDuringClaim: bool, attempts: seq<AttemptScript>, stopDuringWait: bool,
    abortDuringWait: bool)

  datatype Config = Config(poll: nat, idleMax: nat, maxErrors: nat) {
    predicate Valid() { 1 <= poll <= 60_000 && poll <= idleMax <= 300_000 && 1 <= maxErrors <= 1000 }
  }

  datatype Event =
    | StopRequested
    | AbortRequested
    | Claiming
    | ClaimFailed
    | ClaimedSome(leased: seq<Leased>)
    | Cleared
    | Batching(attempts: seq<Leased>)
    | Asked(attempt: Leased, binding: Binding, now: int, lookup: Option<Lookup>, aborted: bool)
    | Released(attempt: Leased)
    | Wrote(attempt: Leased, observation: Observation, reply: Reply)
    | BatchDone(recorded: nat)
    | Waited(ms: nat)

  /** State across one batch. */
  datatype Work = Work(stop: bool, aborted: bool, deadline: bool, over: bool, recorded: nat, trace: seq<Event>)

  datatype St = St(stop: bool, aborted: bool, halted: bool, backoff: nat, errors: nat, processed: set<Key>, trace: seq<Event>)

  /** The requests that arrive during one await. */
  function Requests(stop: bool, abort: bool): seq<Event> {
    (if stop then [StopRequested] else []) + (if abort then [AbortRequested] else [])
  }

  /** What `classifyLeasedAttempt` makes of the answer to its question. */
  function AnswerOf(lane: Lane, b: Binding, now: int, lookup: Option<Lookup>, aborted: bool): Decision {
    if lookup.None? then Hold(if aborted then LookupAborted else TransportThrew)
    else if aborted then Hold(LookupAborted)
    else
      match lane.classify(b, now, lookup.value)
      case None => Hold(MalformedResponse)
      case Some(e) => Decide(e)
  }

  /** `#releaseQuietly`. */
  function Release(w: Work, a: Leased, x: AttemptScript): Work {
    w.(trace := w.trace + [Released(a)] + Requests(x.stopDuringWrite, x.abortDuringWrite),
       stop := w.stop || x.stopDuringWrite, aborted := w.aborted || x.abortDuringWrite)
  }

  /** The end of `#processAttempt` for a decision to record. */
  function Recording(w: Work, a: Leased, o: Observation, x: AttemptScript): Work {
    if w.aborted || x.abortBeforeRecord then
      w.(trace := w.trace + Requests(false, x.abortBeforeRecord), aborted := true)
    else
      w.(trace := w.trace + [Wrote(a, o, x.reply)] + Requests(x.stopDuringWrite, x.abortDuringWrite),
         stop := w.stop || x.stopDuringWrite, aborted := x.abortDuringWrite,
         recorded := w.recorded + (if x.reply.Applied? then 1 else 0))
  }

  /** The state once the question about `a` is answered. */
  function Questioned(w: Work, a: Leased, b: Binding, x: AttemptScript): Work {
    w.(trace := w.trace + [Asked(a, b, x.now, x.lookup, x.Cut())] + Requests(x.stopDuring, x.abortDuring),
       stop := w.stop || x.stopDuring, aborted := w.aborted || x.abortDuring, deadline := w.deadline || x.deadlineDuring)
  }

  /** `#processAttempt`. */
  function ProcessAttempt(lane: Lane, w: Work, a: Leased, x: AttemptScript): Work {
    match lane.parse(a.raw)
    case None => Release(w, a, x)
    case Some(b) =>
      var w1 := Questioned(w, a, b, x);
      match AnswerOf(lane, b, x.now, x.lookup, x.Cut())
      case Hold(_) => Release(w1, a, x)
      case Record(o) => Recording(w1, a, o, x)
  }

  /** The script of the `i`-th attempt; past the end of the script the batch deadline has fired. */
  function ScriptAt(xs: seq<AttemptScript>, i: nat): AttemptScript {
    if i < |xs| then xs[i] else AttemptScript(true, 0, None, false, false, false, false, Threw, false, false, false)
  }

  /** One turn of the batch loop. */
  function BatchTurn(lane: Lane, w: Work, a: Leased, x: AttemptScript): Work {
    if w.over then w
    else
      var w1 := w.(deadline := w.deadline || x.deadlineBefore);
      if w1.deadline || w1.aborted then w1.(over := true)
      else if a.leaseUntil.Some? && x.now >= a.leaseUntil.value then w1
      else ProcessAttempt(lane, w1, a, x)
  }

  function Batch(lane: Lane, w: Work, leased: seq<Leased>, xs: seq<AttemptScript>, n: nat): Work
    requires n <= |leased|
  {
    if n == 0 then w else BatchTurn(lane, Batch(lane, w, leased, xs, n - 1), leased[n - 1], ScriptAt(xs, n - 1))
  }

  function FreshOnly(leased: seq<Leased>, processed: set<Key>): seq<Leased> {
    if leased == [] then []
    else (if leased[0].Id() in processed then [] else [leased[0]]) + FreshOnly(leased[1..], processed)
  }

  function Ids(leased: seq<Leased>): set<Key> { set a | a in leased :: a.Id() }

  /** Wait, then double the delay. */
  function Wait(c: Config, s: St, t: Turn): St {
    s.(trace := s.trace + [Waited(s.backoff)] + Requests(t.stopDuringWait, t.abortDuringWait),
       backoff := Backoff.Doubled(s.backoff, c.idleMax), stop := s.stop || t.stopDuringWait,
       aborted := s.aborted || t.abortDuringWait)
  }

  function FailedTurn(c: Config, s: St, t: Turn): St {
    var s1 := s.(errors := s.errors + 1, trace := s.trace + [ClaimFailed]);
    if s1.errors >= c.maxErrors then s1.(halted := true) else Wait(c, s1, t)
  }

  function EmptyTurn(c: Config, s: St, t: Turn): St {
    Wait(c, s.(processed := {}, trace := s.trace + [Cleared]), t)
  }

  function BatchedTurn(lane: Lane, c: Config, s: St, found: seq<Leased>, t: Turn): St {
    var w := Batch(lane, Work(s.stop, s.aborted, false, false, 0, s.trace + [Batching(found)]), found, t.attempts, |found|);
    var s1 := s.(processed := s.processed + Ids(found), stop := w.stop, aborted := w.aborted,
                 trace := w.trace + [BatchDone(w.recorded)]);
    if w.recorded == 0 then Wait(c, s1, t) else s1.(backoff := c.poll)
  }

  function ClaimedTurn(lane: Lane, c: Config, s: St, leased: seq<Leased>, t: Turn): St {
    var s1 := s.(errors := 0, trace := s.trace + [ClaimedSome(leased)]);
    if s1.stop then s1.(halted := true)
    else
      var found := FreshOnly(leased, s1.processed);
      if found == [] then EmptyTurn(c, s1, t) else BatchedTurn(lane, c, s1, found, t)
  }

  /** The state once the claim is answered. */
  function Polled(s: St, t: Turn): St {
    s.(stop := s.stop || t.stopDuringClaim, aborted := s.aborted || t.abortDuringClaim,
       trace := s.trace + [Claiming] + Requests(t.stopDuringClaim, t.abortDuringClaim))
  }

  /** One turn of `run`. */
  function LoopTurn(lane: Lane, c: Config, s: St, t: Turn): St {
    if s.halted then s
    else if s.stop then s.(halted := true)
    else
      match t.claim
      case ClaimFails => FailedTurn(c, Polled(s, t), t)
      case Claims(leased) => ClaimedTurn(lane, c, Polled(s, t), leased, t)
  }

  function Begin(c: Config): St { St(false, false, false, c.poll, 0, {}, []) }

  function Run(lane: Lane, c: Config, turns: seq<Turn>): St {
    if turns == [] then Begin(c) else LoopTurn(lane, c, Run(lane, c, turns[..|turns| - 1]), turns[|turns| - 1])
  }

  // ---- What stop and abort requests cut off. ----

  /** Nothing is asked or written after an abort request, and nothing is claimed after a stop request. */
  ghost predicate Obeys(trace: seq<Event>) {
    forall i, j :: 0 <= i < j < |trace| ==> Allows(trace[i], trace[j])
  }

  predicate Allows(earlier: Event, later: Event) {
    && (earlier.AbortRequested? ==> !later.Asked? && !later.Wrote?)
    && (earlier.StopRequested? ==> !later.Claiming?)
  }

  /** The flags say which requests have arrived. */
  ghost predicate Heeds(stop: bool, aborted: bool, trace: seq<Event>) {
    Obeys(trace) && (stop <==> StopRequested in trace) && (aborted <==> AbortRequested in trace)
  }

  lemma EventHeeds(stop: bool, aborted: bool, trace: seq<Event>, e: Event)
    requires Heeds(stop, aborted, trace) && (aborted ==> !e.Asked? && !e.Wrote?) && (stop ==> !e.Claiming?)
    ensures Heeds(stop || e.StopRequested?, aborted || e.AbortRequested?, trace + [e])
  {
    assert forall i :: 0 <= i < |trace| ==> trace[i] in trace;
  }

  lemma RequestsHeed(stop: bool, aborted: bool, trace: seq<Event>, s: bool, a: bool)
    requires Heeds(stop, aborted, trace)
    ensures Heeds(stop || s, aborted || a, trace + Requests(s, a))
  {
    if s { EventHeeds(stop, aborted, trace, StopRequested); }
    var mid := trace + Requests(s, false);
    assert mid == trace + if s then [StopRequested] else [];
    if a { EventHeeds(stop || s, aborted, mid, AbortRequested); }
    assert trace + Requests(s, a) == mid + Requests(false, a);
    assert Requests(false, a) == if a then [AbortRequested] else [];
  }

  lemma EventAndRequestsHeed(stop: bool, aborted: bool, trace: seq<Event>, e: Event, s: bool, a: bool)
    requires Heeds(stop, aborted, trace) && (aborted ==> !e.Asked? && !e.Wrote?) && (stop ==> !e.Claiming?)
    requires !e.StopRequested? && !e.AbortRequested?
    ensures Heeds(stop || s, aborted || a, trace + [e] + Requests(s, a))
  {
    EventHeeds(stop, aborted, trace, e);
    RequestsHeed(stop, aborted, trace + [e], s, a);
  }

  lemma AttemptHeeds(lane: Lane, w: Work, a: Leased, x: AttemptScript)
    requires Heeds(w.stop, w.aborted, w.trace) && !w.aborted
    ensures var v := ProcessAttempt(lane, w, a, x); Heeds(v.stop, v.aborted, v.trace)
  {
    match lane.parse(a.raw)
    case None => EventAndRequestsHeed(w.stop, w.aborted, w.trace, Released(a), x.stopDuringWrite, x.abortDuringWrite);
    case Some(b) =>
      var w1 := Questioned(w, a, b, x);
      EventAndRequestsHeed(w.stop, w.aborted, w.trace, Asked(a, b, x.now, x.lookup, x.Cut()), x.stopDuring, x.abortDuring);
      match AnswerOf(lane, b, x.now, x.lookup, x.Cut())
      case Hold(_) => EventAndRequestsHeed(w1.stop, w1.aborted, w1.trace, Released(a), x.stopDuringWrite, x.abortDuringWrite);
      case Record(o) => RecordingHeeds(w1, a, o, x);
  }

  lemma RecordingHeeds(w: Work, a: Leased, o: Observation, x: AttemptScript)
    requires Heeds(w.stop, w.aborted, w.trace)
    ensures var v := Recording(w, a, o, x); Heeds(v.stop, v.aborted, v.trace)
  {
    if w.aborted || x.abortBeforeRecord {
      RequestsHeed(w.stop, w.aborted, w.trace, false, x.abortBeforeRecord);
    } else {
      EventAndRequestsHeed(w.stop, w.aborted, w.trace, Wrote(a, o, x.reply), x.stopDuringWrite, x.abortDuringWrite);
    }
  }

  lemma {:induction false} BatchHeeds(lane: Lane, w: Work, leased: seq<Leased>, xs: seq<AttemptScript>, n: nat)
    requires n <= |leased| && Heeds(w.stop, w.aborted, w.trace)
    ensures var v := Batch(lane, w, leased, xs, n); Heeds(v.stop, v.aborted, v.trace)
  {
    if n > 0 {
      BatchHeeds(lane, w, leased, xs, n - 1);
      var v := Batch(lane, w, leased, xs, n - 1);
      var x := ScriptAt(xs, n - 1);
      if !v.aborted { AttemptHeeds(lane, v.(deadline := v.deadline || x.deadlineBefore), leased[n - 1], x); }
    }
  }

  ghost predicate StHeeds(s: St) { Heeds(s.stop, s.aborted, s.trace) }

  lemma WaitHeeds(c: Config, s: St, t: Turn)
    requires StHeeds(s)
    ensures StHeeds(Wait(c, s, t))
  {
    EventAndRequestsHeed(s.stop, s.aborted, s.trace, Waited(s.backoff), t.stopDuringWait, t.abortDuringWait);
  }

  lemma BatchedHeeds(lane: Lane, c: Config, s: St, found: seq<Leased>, t: Turn)
    requires StHeeds(s)
    ensures StHeeds(BatchedTurn(lane, c, s, found, t))
  {
    var start := Work(s.stop, s.aborted, false, false, 0, s.trace + [Batching(found)]);
    var w := Batch(lane, start, found, t.attempts, |found|);
    EventHeeds(s.stop, s.aborted, s.trace, Batching(found));
    BatchHeeds(lane, start, found, t.attempts, |found|);
    EventHeeds(w.stop, w.aborted, w.trace, BatchDone(w.recorded));
    WaitHeeds(c, s.(processed := s.processed + Ids(found), stop := w.stop, aborted := w.aborted,
                    trace := w.trace + [BatchDone(w.recorded)]), t);
  }

  lemma ClaimedHeeds(lane: Lane, c: Config, s: St, leased: seq<Leased>, t: Turn)
    requires StHeeds(s)
    ensures StHeeds(ClaimedTurn(lane, c, s, leased, t))
  {
    var s1 := s.(errors := 0, trace := s.trace + [ClaimedSome(leased)]);
    EventHeeds(s.stop, s.aborted, s.trace, ClaimedSome(leased));
    EventHeeds(s1.stop, s1.aborted, s1.trace, Cleared);
    WaitHeeds(c, s1.(processed := {}, trace := s1.trace + [Cleared]), t);
    BatchedHeeds(lane, c, s1, FreshOnly(leased, s1.processed), t);
  }

  lemma TurnHeeds(lane: Lane, c: Config, s: St, t: Turn)
    requires StHeeds(s)
    ensures StHeeds(LoopTurn(lane, c, s, t))
  {
    if !s.halted && !s.stop {
      EventAndRequestsHeed(s.stop, s.aborted, s.trace, Claiming, t.stopDuringClaim, t.abortDuringClaim);
      var s0 := Polled(s, t);
      match t.claim
      case ClaimFails =>
        EventHeeds(s0.stop, s0.aborted, s0.trace, ClaimFailed);
        WaitHeeds(c, s0.(errors := s0.errors + 1, trace := s0.trace + [ClaimFailed]), t);
      case Claims(leased) => ClaimedHeeds(lane, c, s0, leased, t);
    }
  }

  lemma {:induction false} RunHeeds(lane: Lane, c: Config, turns: seq<Turn>)
    ensures StHeeds(Run(lane, c, turns))
  {
    if turns != [] {
      var front := turns[..|turns| - 1];
      RunHeeds(lane, c, front);
      TurnHeeds(lane, c, Run(lane, c, front), turns[|turns| - 1]);
    }
  }

  /** Over every script: no question and no write follows an abort request, and no claim follows a stop request. */
  lemma RequestsAreObeyed(lane: Lane, c: Config, turns: seq<Turn>, i: nat, j: nat)
    requires i < j < |Run(lane, c, turns).trace|
    ensures Run(lane, c, turns).trace[i].AbortRequested? ==>
      !Run(lane, c, turns).trace[j].Asked? && !Run(lane, c, turns).trace[j].Wrote?
    ensures Run(lane, c, turns).trace[i].StopRequested? ==> !Run(lane, c, turns).trace[j].Claiming?
  {
    RunHeeds(lane, c, turns);
    assert Allows(Run(lane, c, turns).trace[i], Run(lane, c, turns).trace[j]);
  }

  /** The loop ends on its own only after a stop request or at its bound on failed claims. */
  lemma {:induction false} HaltsForAReason(lane: Lane, c: Config, turns: seq<Turn>)
    ensures var s := Run(lane, c, turns); s.halted ==> s.stop || s.errors >= c.maxErrors
  {
    if turns != [] {
      var front := turns[..|turns| - 1];
      HaltsForAReason(lane, c, front);
      TurnHalts(lane, c, Run(lane, c, front), turns[|turns| - 1]);
    }
  }

  lemma TurnHalts(lane: Lane, c: Config, s: St, t: Turn)
    requires s.halted ==> s.stop || s.errors >= c.maxErrors
    ensures var v := LoopTurn(lane, c, s, t); v.halted ==> v.stop || v.errors >= c.maxErrors
  {}

  // ---- The loop as it is written. ----

  class SettlementObservationLoop {
    const config: Config
    const lane: Lane
    var stopRequested: bool
    var workAborted: bool
    var trace: seq<Event>

    constructor (lane: Lane, config: Config)
      ensures this.lane == lane && this.config == config
      ensures !stopRequested && !workAborted && trace == []
    {
      this.lane := lane;
      this.config := config;
      stopRequested, workAborted, trace := false, false, [];
    }

    /** `run`: poll, process and back off until stopped, out of errors, or out of script. */
    method RunLoop(turns: seq<Turn>) returns (ended: St)
      requires !stopRequested && !workAborted && trace == []
      modifies this
      ensures ended == Run(lane, config, turns) && trace == ended.trace
      ensures Obeys(trace) && (stopRequested <==> StopRequested in trace) && (workAborted <==> AbortRequested in trace)
      ensures ended.halted ==> stopRequested || ended.errors >= config.maxErrors
    {
      var backoffMs, errors := config.poll, 0;
      var processed: set<Key> := {};
      var halted := false;
      for i := 0 to |turns|
        invariant St(stopRequested, workAborted, halted, backoffMs, errors, processed, trace) == Run(lane, config, turns[..i])
      {
        ghost var before := St(stopRequested, workAborted, halted, backoffMs, errors, processed, trace);
        assert turns[..i + 1][..i] == turns[..i];
        var t := turns[i];
        if halted { continue; }
        if stopRequested { halted := true; continue; }
        trace := trace + [Claiming];
        Await(t.stopDuringClaim, t.abortDuringClaim);
        match t.claim {
          case ClaimFails =>
            assert LoopTurn(lane, config, before, t) == FailedTurn(config, Polled(before, t), t);
            errors := errors + 1;
            trace := trace + [ClaimFailed];
            if errors >= config.maxErrors { halted := true; continue; }
            backoffMs := WaitAndDouble(backoffMs, t);
          case Claims(leased) =>
            assert LoopTurn(lane, config, before, t) == ClaimedTurn(lane, config, Polled(before, t), leased, t);
            errors := 0;
            trace := trace + [ClaimedSome(leased)];
            if stopRequested { halted := true; continue; }
            var found := FreshOnly(leased, processed);
            processed, backoffMs := Sweep(found, processed, backoffMs, t);
        }
        assert LoopTurn(lane, config, before, t) == St(stopRequested, workAborted, halted, backoffMs, errors, processed, trace);
      }
      assert turns[..|turns|] == turns;
      RunHeeds(lane, config, turns);
      HaltsForAReason(lane, config, turns);
      return St(stopRequested, workAborted, halted, backoffMs, errors, processed, trace);
    }

    /** The rest of a turn: clear and wait when nothing is left of a claim, else one batch. */
    method Sweep(found: seq<Leased>, processed: set<Key>, backoffMs: nat, t: Turn) returns (swept: set<Key>, next: nat)
      modifies this
      ensures var s := St(old(stopRequested), old(workAborted), false, backoffMs, 0, processed, old(trace));
        St(stopRequested, workAborted, false, next, 0, swept, trace) ==
          if found == [] then EmptyTurn(config, s, t) else BatchedTurn(lane, config, s, found, t)
    {
      next := backoffMs;
      if found == [] {
        swept := {};
        trace := trace + [Cleared];
        next := WaitAndDouble(backoffMs, t);
      } else {
        swept := processed + Ids(found);
        trace := trace + [Batching(found)];
        var recorded := ProcessBatch(found, t.attempts);
        trace := trace + [BatchDone(recorded)];
        if recorded == 0 {
          next := WaitAndDouble(backoffMs, t);
        } else {
          next := config.poll;
        }
      }
    }

    /** What reaches the loop while it awaits: `requestStop()` and `abort()`. */
    method Await(stop: bool, abort: bool)
      modifies this`trace, this`stopRequested, this`workAborted
      ensures trace == old(trace) + Requests(stop, abort)
      ensures stopRequested == (old(stopRequested) || stop) && workAborted == (old(workAborted) || abort)
    {
      if stop {
        trace := trace + [StopRequested];
        stopRequested := true;
      }
      if abort {
        trace := trace + [AbortRequested];
        workAborted := true;
      }
    }

    method WaitAndDouble(ms: nat, t: Turn) returns (next: nat)
      modifies this`trace, this`stopRequested, this`workAborted
      ensures trace == old(trace) + [Waited(ms)] + Requests(t.stopDuringWait, t.abortDuringWait)
      ensures stopRequested == (old(stopRequested) || t.stopDuringWait) && workAborted == (old(workAborted) || t.abortDuringWait)
      ensures next == Backoff.Doubled(ms, config.idleMax)
    {
      trace := trace + [Waited(ms)];
      Await(t.stopDuringWait, t.abortDuringWait);
      return Min(ms * 2, config.idleMax);
    }

    /** `#processBatch`: one attempt after the other, until the batch deadline or an abort. */
    method ProcessBatch(leased: seq<Leased>, xs: seq<AttemptScript>) returns (recorded: nat)
      modifies this`trace, this`stopRequested, this`workAborted
      ensures var w := Batch(lane, Work(old(stopRequested), old(workAborted), false, false, 0, old(trace)), leased, xs, |leased|);
        stopRequested == w.stop && workAborted == w.aborted && trace == w.trace && recorded == w.recorded
      ensures recorded <= |leased| && (old(workAborted) ==> recorded == 0 && trace == old(trace))
    {
      recorded := 0;
      var deadline := false;
      ghost var start := Work(stopRequested, workAborted, false, false, 0, trace);
      for i := 0 to |leased|
        invariant Work(stopRequested, workAborted, deadline, false, recorded, trace) == Batch(lane, start, leased, xs, i)
        invariant recorded <= i && (old(workAborted) ==> i == 0 && trace == old(trace))
      {
        var x := ScriptAt(xs, i);
        deadline := deadline || x.deadlineBefore;
        if deadline || workAborted {
          OverStays(lane, start, leased, xs, i + 1, |leased|);
          return;
        }
        if leased[i].leaseUntil.Some? && x.now >= leased[i].leaseUntil.value { continue; }
        CountsFrom(lane, Work(stopRequested, false, false, false, 0, trace), recorded, leased[i], x);
        var applied;
        deadline, applied := ProcessOne(leased[i], x, deadline);
        recorded := recorded + (if applied then 1 else 0);
      }
    }

    /** `#processAttempt`: ask, decide, then release the lease or record, and count only an applied record. */
    method ProcessOne(a: Leased, x: AttemptScript, deadline: bool) returns (deadlineNow: bool, applied: bool)
      requires !workAborted && !deadline
      modifies this`trace, this`stopRequested, this`workAborted
      ensures var w := ProcessAttempt(lane, Work(old(stopRequested), false, false, false, 0, old(trace)), a, x);
        w == Work(stopRequested, workAborted, deadlineNow, false, if applied then 1 else 0, trace)
      ensures applied ==> x.reply.Applied? && lane.parse(a.raw).Some? && !x.Cut() && !x.abortBeforeRecord
    {
      var decision;
      deadlineNow := deadline;
      match lane.parse(a.raw) {
        case None => decision := Hold(BindingUnreadable);
        case Some(b) =>
          trace := trace + [Asked(a, b, x.now, x.lookup, x.Cut())];
          Await(x.stopDuring, x.abortDuring);
          deadlineNow := x.deadlineDuring;
          decision := AnswerOf(lane, b, x.now, x.lookup, x.Cut());
      }
      if decision.Hold? {
        trace := trace + [Released(a)];
        Await(x.stopDuringWrite, x.abortDuringWrite);
        return deadlineNow, false;
      }
      Await(false, x.abortBeforeRecord);
      if workAborted { return deadlineNow, false; }
      trace := trace + [Wrote(a, decision.observation, x.reply)];
      Await(x.stopDuringWrite, x.abortDuringWrite);
      return deadlineNow, x.reply.Applied?;
    }
  }

  /** The count goes on from where it was. */
  lemma CountsFrom(lane: Lane, w: Work, n: nat, a: Leased, x: AttemptScript)
    ensures var v := ProcessAttempt(lane, w, a, x);
      v.recorded >= w.recorded && ProcessAttempt(lane, w.(recorded := n), a, x) == v.(recorded := n + (v.recorded - w.recorded))
  {
    match lane.parse(a.raw)
    case None => assert Release(w.(recorded := n), a, x) == Release(w, a, x).(recorded := n);
    case Some(b) =>
      var w1 := Questioned(w, a, b, x);
      assert Questioned(w.(recorded := n), a, b, x) == w1.(recorded := n);
      match AnswerOf(lane, b, x.now, x.lookup, x.Cut())
      case Hold(_) => assert Release(w1.(recorded := n), a, x) == Release(w1, a, x).(recorded := n);
      case Record(o) => RecordingCounts(w1, n, a, o, x);
  }

  lemma RecordingCounts(w: Work, n: nat, a: Leased, o: Observation, x: AttemptScript)
    ensures var v := Recording(w, a, o, x);
      v.recorded >= w.recorded && Recording(w.(recorded := n), a, o, x) == v.(recorded := n + (v.recorded - w.recorded))
  {}

  lemma {:induction false} OverStays(lane: Lane, w: Work, leased: seq<Leased>, xs: seq<AttemptScript>, i: nat, n: nat)
    requires i <= n <= |leased| && Batch(lane, w, leased, xs, i).over
    ensures Batch(lane, w, leased, xs, n) == Batch(lane, w, leased, xs, i)
    decreases n - i
  {
    if i < n { OverStays(lane, w, leased, xs, i, n - 1); }
  }
}
