/**
 * The durable payment attempt: its row, the mutation rule and checks of its table, the statements
 * that write it, and the projection the store returns. Instants are microseconds since the epoch.
 */
module PaymentAttempts {
  import opened Prelude

  type Time = int
  type Digest = string

  const SECOND: Time := 1_000_000
  const MIN_VALIDITY_SECONDS := 604_800
  const MAX_VALIDITY_SECONDS := 609_000
  const VALID_AFTER_SKEW_SECONDS := 600
  const LEASE: Time := 120 * SECOND
  const MAX_OBSERVATIONS: nat := 10

  datatype AttemptState = Persisted | Unknown | Pending | Committed
  datatype GatewayStatus = Received | Batched | Confirmed | Completed

  datatype Key = Key(org: string, attempt: string)

  /** The lane binding; schema version, role, network, asset and contract are fixed constants. */
  datatype Binding = Binding(
    grantId: string, actionId: string, attemptId: string, requirementDigest: Digest, laneDigest: Digest,
    from: string, to: string, value: nat, validAfter: nat, validBefore: nat, nonce: string)

  datatype Attempt = Attempt(
    binding: Binding, digest: Digest, state: AttemptState, persistedAt: Time,
    dispatchedAt: Option<Time>, observedAt: Option<Time>,
    transferId: Option<string>, gateway: Option<GatewayStatus>, batchTxHash: Option<string>)

  datatype Lease = Lease(generation: nat, until: Option<Time>, count: nat)

  datatype PayError = InputInvalid | NotFound | AttemptConflict | GrantExpired | Unavailable

  datatype Result<+T> = Ok(value: T) | Err(error: PayError) {
    predicate IsFailure() { Err? }
    function PropagateFailure<U>(): Result<U> requires Err? { Err(error) }
    function Extract(): T requires Ok? { value }
  }

  function Rank(state: AttemptState): nat {
    match state case Persisted => 0 case Unknown => 1 case Pending => 2 case Committed => 3
  }

  function GatewayRank(status: Option<GatewayStatus>): nat {
    match status
    case None => 0
    case Some(Received) => 1
    case Some(Batched) => 2
    case Some(Confirmed) => 3
    case Some(Completed) => 4
  }

  // ---- The table's own rules. ----

  /** `payment_attempts_state_shape`. */
  predicate StateShape(a: Attempt) {
    match a.state
    case Persisted => a.dispatchedAt.None? && a.observedAt.None? && a.transferId.None? && a.gateway.None? && a.batchTxHash.None?
    case Unknown => a.dispatchedAt.Some? && a.observedAt.None? && a.transferId.None? && a.gateway.None? && a.batchTxHash.None?
    case Pending =>
      a.dispatchedAt.Some? && a.observedAt.Some? && a.transferId.Some? && a.gateway.Some? && a.gateway != Some(Completed)
    case Committed =>
      a.dispatchedAt.Some? && a.observedAt.Some? && a.transferId.Some? && a.gateway == Some(Completed) && a.batchTxHash.Some?
  }

  /** `payment_attempts_clock_valid`. */
  predicate ClockValid(a: Attempt) {
    && (a.dispatchedAt.Some? ==> a.dispatchedAt.value >= a.persistedAt)
    && (a.observedAt.Some? ==> a.dispatchedAt.Some? && a.observedAt.value >= a.dispatchedAt.value)
  }

  /** The update branch of the mutation trigger: immutable facts, and the only edges. */
  predicate EdgeAllowed(old_: Attempt, new_: Attempt) {
    && new_.binding == old_.binding && new_.digest == old_.digest && new_.persistedAt == old_.persistedAt
    && (old_.dispatchedAt.Some? ==> new_.dispatchedAt == old_.dispatchedAt)
    && (old_.transferId.Some? ==> new_.transferId == old_.transferId)
    && (old_.batchTxHash.Some? ==> new_.batchTxHash == old_.batchTxHash)
    && (old_.observedAt.Some? ==> new_.observedAt.Some? && new_.observedAt.value >= old_.observedAt.value)
    && match (old_.state, new_.state)
       case (Persisted, Unknown) => true
       case (Unknown, Pending) => true
       case (Unknown, Committed) => true
       case (Pending, Pending) =>
         || GatewayRank(new_.gateway) > GatewayRank(old_.gateway)
         || (GatewayRank(new_.gateway) == GatewayRank(old_.gateway) && old_.batchTxHash.None? && new_.batchTxHash.Some?)
       case (Pending, Committed) => true
       case _ => false
  }

  /** An UPDATE as the table performs it: trigger, then checks. */
  function Update(old_: Attempt, new_: Attempt): Result<Attempt> {
    if EdgeAllowed(old_, new_) && StateShape(new_) && ClockValid(new_) then Ok(new_) else Err(AttemptConflict)
  }

  // ---- The statements. ----

  function LowerChar(c: char): char {
    if 'A' <= c <= 'F' then (c as int - 'A' as int + 'a' as int) as char else c
  }

  function Lower(s: string): string { seq(|s|, i requires 0 <= i < |s| => LowerChar(s[i])) }

  const ASSET := "0x3600000000000000000000000000000000000000"
  const VERIFYING_CONTRACT_LOWER := "0x0077777d7eba4688bdef3e311b846f25870a19b9"
  const ZERO_ADDRESS := "0x0000000000000000000000000000000000000000"
  const ZERO_NONCE := "0x0000000000000000000000000000000000000000000000000000000000000000"
  const UINT256_MAX: nat := 0xFFFF_FFFF_FFFF_FFFF_FFFF_FFFF_FFFF_FFFF_FFFF_FFFF_FFFF_FFFF_FFFF_FFFF_FFFF_FFFF

  /** `requireBinding`, on fields already of their textual grammar. */
  predicate BindingAccepted(b: Binding) {
    && Lower(b.from) != ZERO_ADDRESS && Lower(b.to) != ZERO_ADDRESS
    && 0 < b.value <= UINT256_MAX && b.validAfter <= UINT256_MAX && 0 < b.validBefore <= UINT256_MAX
    && Lower(b.to) != Lower(b.from) && Lower(b.to) != ASSET && Lower(b.to) != VERIFYING_CONTRACT_LOWER
    && b.validBefore > b.validAfter && b.validBefore - b.validAfter >= MIN_VALIDITY_SECONDS && b.nonce != ZERO_NONCE
  }

  /**
   * What the locked grant chain says: its own action, requirement, amount and payee; whether the grant is
   * issued and unused; whether nothing in the chain has expired; whether action and reservation still hold.
   */
  datatype Chain = Chain(
    actionId: string, requirementDigest: Digest, amount: nat, payTo: string, issued: bool, unexpired: bool, held: bool)

  /** The binding the database derives for an insert: caller's fields, but its own action, requirement and amount. */
  function Derived(b: Binding, chain: Chain): Binding {
    b.(actionId := chain.actionId, requirementDigest := chain.requirementDigest, value := chain.amount)
  }

  function FreshAttempt(b: Binding, digest: Digest, now: Time): Attempt {
    Attempt(b, digest, Persisted, now, None, None, None, None, None)
  }

  predicate ValidityAtPersist(b: Binding, now: Time) {
    var epoch := now / SECOND;
    && b.validAfter <= epoch + VALID_AFTER_SKEW_SECONDS
    && MIN_VALIDITY_SECONDS <= b.validBefore - epoch <= MAX_VALIDITY_SECONDS
    && b.validBefore > b.validAfter
  }

  datatype Persisting = Persisting(replayed: bool, attempt: Attempt)

  /**
   * `persist_payment_attempt`: `existing` is the attempt of this grant, `taken` says whether another
   * attempt already has this id.
   */
  function PersistSql(hash: Binding -> Digest, existing: Option<Attempt>, taken: bool, b: Binding, digest: Digest,
                      chain: Chain, now: Time): Result<Persisting> {
    if Lower(b.to) != chain.payTo then Err(InputInvalid)
    else if existing.Some? then
      if existing.value.binding.attemptId == b.attemptId && existing.value.digest == digest
      then Ok(Persisting(true, existing.value)) else Err(AttemptConflict)
    else if taken then Err(AttemptConflict)
    else if !chain.issued then Err(AttemptConflict)
    else if !chain.unexpired then Err(GrantExpired)
    else if !chain.held then Err(AttemptConflict)
    else if !ValidityAtPersist(b, now) then Err(InputInvalid)
    else if hash(Derived(b, chain)) != digest then Err(InputInvalid)
    else Ok(Persisting(false, FreshAttempt(Derived(b, chain), digest, now)))
  }

  /** `persistBuyerAttempt`: the parsed input, the statement, and the store's own re-assertions. */
  function Persist(hash: Binding -> Digest, existing: Option<Attempt>, taken: bool, b: Binding, digest: Digest,
                   chain: Chain, now: Time): Result<Persisting> {
    if !BindingAccepted(b) || hash(b) != digest then Err(InputInvalid)
    else
      var p :- PersistSql(hash, existing, taken, b, digest, chain, now);
      var a := p.attempt;
      if !ShapeAccepted(a) then Err(Unavailable)
      else if a.binding.attemptId != b.attemptId || a.binding.grantId != b.grantId || a.binding.actionId != b.actionId
              || a.digest != digest || a.binding.requirementDigest != b.requirementDigest
              || a.binding.value != b.value || a.binding.nonce != b.nonce then Err(Unavailable)
      else if !p.replayed && a.state != Persisted then Err(Unavailable)
      else Ok(p)
  }

  /** `record_payment_attempt_dispatch` with the store's re-assertions. */
  function Dispatch(existing: Option<Attempt>, digest: Digest, chain: Chain, now: Time): Result<Attempt> {
    if existing.None? then Err(NotFound)
    else
      var a := existing.value;
      if a.digest != digest then Err(AttemptConflict)
      else if a.state != Persisted || a.dispatchedAt.Some? then Err(AttemptConflict)
      else if !chain.issued then Err(AttemptConflict)
      else if !chain.unexpired then Err(GrantExpired)
      else if !chain.held then Err(AttemptConflict)
      else if a.binding.validBefore - now / SECOND < MIN_VALIDITY_SECONDS then Err(GrantExpired)
      else
        var after :- Update(a, a.(state := Unknown, dispatchedAt := Some(now)));
        if !ShapeAccepted(after) || after.state != Unknown then Err(Unavailable) else Ok(after)
  }

  /** A positive observation, the closed input of the recorder. */
  datatype Observation = Observation(state: AttemptState, transferId: string, gateway: GatewayStatus, batchTxHash: Option<string>)

  predicate Recordable(o: Observation) {
    || (o.state.Pending? && !o.gateway.Completed?)
    || (o.state.Committed? && o.gateway.Completed? && o.batchTxHash.Some?)
  }

  function Observed(a: Attempt, o: Observation, now: Time): Attempt {
    a.(state := o.state, observedAt := Some(now), transferId := Some(o.transferId), gateway := Some(o.gateway),
       batchTxHash := if o.batchTxHash.Some? then o.batchTxHash else a.batchTxHash)
  }

  /** `record_payment_attempt_observation`. */
  function Observe(existing: Option<Attempt>, o: Observation, now: Time): Result<Attempt> {
    if !Recordable(o) then Err(InputInvalid)
    else if existing.None? then Err(NotFound)
    else
      var a := existing.value;
      if a.state.Persisted? || a.state.Committed? then Err(AttemptConflict)
      else if a.transferId.Some? && a.transferId.value != o.transferId then Err(AttemptConflict)
      else Update(a, Observed(a, o, now))
  }

  predicate LeaseHeld(lease: Lease, generation: nat, now: Time) {
    lease.generation == generation && lease.until.Some? && lease.until.value > now
  }

  /** `record_leased_payment_attempt_observation`: nothing at all under a stale, expired or missing lease. */
  function ObserveLeased(existing: Option<Attempt>, lease: Option<Lease>, generation: nat, o: Observation, now: Time):
    Result<Option<Attempt>>
  {
    if generation < 1 then Err(InputInvalid)
    else if lease.None? || !LeaseHeld(lease.value, generation, now) then Ok(None)
    else
      var after :- Observe(existing, o, now);
      Ok(Some(after))
  }

  /** The selection rule of `claim_payment_attempt_observations`. */
  predicate Claimable(a: Attempt, lease: Option<Lease>, now: Time) {
    && (a.state.Unknown? || a.state.Pending?)
    && (lease.Some? ==> lease.value.count < MAX_OBSERVATIONS && (lease.value.until.Some? ==> lease.value.until.value < now))
  }

  function Claimed(lease: Option<Lease>, now: Time): Lease {
    match lease
    case None => Lease(1, Some(now + LEASE), 1)
    case Some(l) => Lease(l.generation + 1, Some(now + LEASE), l.count + 1)
  }

  // ---- The projection. ----

  /** The closed state shape the store re-asserts on every row it returns. */
  predicate ShapeAccepted(a: Attempt) {
    || (a.state.Persisted? && a.dispatchedAt.None? && a.transferId.None?)
    || (a.state.Unknown? && a.dispatchedAt.Some? && a.transferId.None? && a.gateway.None?)
    || (a.state.Pending? && a.dispatchedAt.Some? && a.transferId.Some? && a.gateway.Some? && a.gateway != Some(Completed))
    || (a.state.Committed? && a.dispatchedAt.Some? && a.transferId.Some? && a.gateway == Some(Completed) && a.batchTxHash.Some?)
  }

  /** The database check implies the projection's shape; what it adds is exactly when observed fields are set. */
  lemma ShapesCompared(a: Attempt)
    ensures StateShape(a) <==>
      && ShapeAccepted(a)
      && (a.observedAt.Some? <==> Rank(a.state) >= 2)
      && (Rank(a.state) < 2 ==> a.gateway.None? && a.batchTxHash.None?)
  {}

  /** The projection alone would let through a row the table can never hold. */
  lemma ProjectionIsWeaker() returns (a: Attempt)
    ensures ShapeAccepted(a) && !StateShape(a)
  {
    var b := Binding("", "", "", "", "", "", "", 0, 0, 0, "");
    a := Attempt(b, "", Persisted, 0, None, Some(0), None, Some(Received), None);
  }

  // ---- What one statement can do to a row. ----

  /** A later version of the same attempt: same binding, facts kept, state no lower. */
  predicate Grows(before: Attempt, after: Attempt) {
    && after.binding == before.binding && after.digest == before.digest && after.persistedAt == before.persistedAt
    && Rank(before.state) <= Rank(after.state)
    && (before.dispatchedAt.Some? ==> after.dispatchedAt == before.dispatchedAt)
    && (before.transferId.Some? ==> after.transferId == before.transferId)
    && (before.batchTxHash.Some? ==> after.batchTxHash == before.batchTxHash)
    && (before.observedAt.Some? ==> after.observedAt.Some? && after.observedAt.value >= before.observedAt.value)
    && (before.state.Committed? ==> after == before)
  }

  predicate RowOk(a: Attempt) { StateShape(a) && ClockValid(a) }

  lemma EdgesGrow(a: Attempt, b: Attempt)
    requires EdgeAllowed(a, b)
    ensures Grows(a, b)
  {}

  lemma GrowsTransitively(a: Attempt, b: Attempt, c: Attempt)
    requires Grows(a, b) && Grows(b, c)
    ensures Grows(a, c)
  {}

  // ---- When a persist succeeds, and what it answers otherwise. ----

  /** What the store takes: a payee of its own, an amount and times that fit 256 bits, at least seven days, a nonce. */
  predicate Presentable(b: Binding) {
    && Lower(b.from) != "0x0000000000000000000000000000000000000000"
    && Lower(b.to) !in ["0x0000000000000000000000000000000000000000", "0x3600000000000000000000000000000000000000",
                        "0x0077777d7eba4688bdef3e311b846f25870a19b9", Lower(b.from)]
    && 1 <= b.value < TWO_TO_256 && b.validAfter < TWO_TO_256 && 1 <= b.validBefore < TWO_TO_256
    && b.validAfter + 604_800 <= b.validBefore
    && b.nonce != "0x0000000000000000000000000000000000000000000000000000000000000000"
  }

  const TWO_TO_256: nat := 0x1_0000_0000_0000_0000_0000_0000_0000_0000_0000_0000_0000_0000_0000_0000_0000_0000

  /** The request is presentable, digests to its digest and names the seller's payee. */
  predicate Requested(hash: Binding -> Digest, b: Binding, digest: Digest, chain: Chain) {
    Presentable(b) && hash(b) == digest && Lower(b.to) == chain.payTo
  }

  /** From seven days to seven days, an hour and ten minutes of validity left, begun at the latest in ten minutes. */
  predicate InTime(b: Binding, now: Time) {
    && b.validAfter <= now / 1_000_000 + 600
    && 604_800 <= b.validBefore - now / 1_000_000 <= 609_000
  }

  /** The fields the chain fixes are the presented ones. */
  predicate ChainAgrees(b: Binding, chain: Chain) {
    b.actionId == chain.actionId && b.requirementDigest == chain.requirementDigest && b.value == chain.amount
  }

  /** No attempt of the grant or of the id, and a grant chain that is issued, unexpired and held. */
  predicate Vacant(existing: Option<Attempt>, taken: bool, chain: Chain) {
    existing.None? && !taken && chain.issued && chain.unexpired && chain.held
  }

  /** The grant's attempt is the one presented. */
  predicate Replays(existing: Option<Attempt>, b: Binding, digest: Digest) {
    existing.Some? && existing.value.binding.attemptId == b.attemptId && existing.value.digest == digest
  }

  /** A first persist stores the presented binding exactly when grant and id are vacant, the chain agrees and the times fit. */
  lemma PersistIff(hash: Binding -> Digest, existing: Option<Attempt>, taken: bool, b: Binding, digest: Digest,
                   chain: Chain, now: Time)
    ensures (Persist(hash, existing, taken, b, digest, chain, now).Ok? && existing.None?) <==>
      && Requested(hash, b, digest, chain) && Vacant(existing, taken, chain) && InTime(b, now) && ChainAgrees(b, chain)
    ensures Persist(hash, existing, taken, b, digest, chain, now).Ok? && existing.None? ==>
      Persist(hash, existing, taken, b, digest, chain, now) ==
        Ok(Persisting(false, Attempt(b, digest, Persisted, now, None, None, None, None, None)))
  {
    PresentableIff(b);
  }

  /** A replay answers the grant's own attempt, unchanged, exactly for its id and digest. */
  lemma ReplayIff(hash: Binding -> Digest, a: Attempt, taken: bool, b: Binding, digest: Digest, chain: Chain, now: Time)
    requires RowOk(a) && a.binding.grantId == b.grantId
    ensures Persist(hash, Some(a), taken, b, digest, chain, now).Ok? <==>
      && Requested(hash, b, digest, chain) && Replays(Some(a), b, digest)
      && a.binding.actionId == b.actionId && a.binding.requirementDigest == b.requirementDigest
      && a.binding.value == b.value && a.binding.nonce == b.nonce
    ensures Persist(hash, Some(a), taken, b, digest, chain, now).Ok? ==>
      Persist(hash, Some(a), taken, b, digest, chain, now) == Ok(Persisting(true, a))
  {
    PresentableIff(b);
  }

  /** Each refusal of a persist, by what is wrong. `Unavailable` is left to two bindings with one digest. */
  lemma PersistRefusals(hash: Binding -> Digest, existing: Option<Attempt>, taken: bool, b: Binding, digest: Digest,
                        chain: Chain, now: Time)
    requires existing.Some? ==> RowOk(existing.value)
    ensures var r := Persist(hash, existing, taken, b, digest, chain, now);
      && (r == Err(GrantExpired) <==>
            Requested(hash, b, digest, chain) && existing.None? && !taken && chain.issued && !chain.unexpired)
      && (r == Err(AttemptConflict) <==>
            Requested(hash, b, digest, chain)
            && (if existing.Some? then !Replays(existing, b, digest)
                else taken || !chain.issued || (chain.unexpired && !chain.held)))
      && (r == Err(InputInvalid) <==>
            !Requested(hash, b, digest, chain)
            || (Vacant(existing, taken, chain) && (!InTime(b, now) || hash(Derived(b, chain)) != digest)))
      && (r == Err(Unavailable) ==>
            exists c: Binding :: c != b && hash(b) == digest && (hash(c) == digest || (existing.Some? && existing.value.binding == c)))
      && r != Err(NotFound)
  {
    PresentableIff(b);
    var r := Persist(hash, existing, taken, b, digest, chain, now);
    if r == Err(Unavailable) {
      var c := if existing.Some? then existing.value.binding else Derived(b, chain);
      assert c != b && hash(b) == digest && (hash(c) == digest || (existing.Some? && existing.value.binding == c));
    }
  }

  lemma PresentableIff(b: Binding)
    ensures BindingAccepted(b) <==> Presentable(b)
  {}

  /** A fresh insert stores exactly the presented binding, even for a digest that collides. */
  lemma PersistStoresBinding(hash: Binding -> Digest, existing: Option<Attempt>, taken: bool, b: Binding, digest: Digest,
                             chain: Chain, now: Time)
    requires Persist(hash, existing, taken, b, digest, chain, now).Ok?
    ensures var p := Persist(hash, existing, taken, b, digest, chain, now).value;
      if p.replayed then existing == Some(p.attempt) && p.attempt.digest == hash(b)
      else existing.None? && !taken && p.attempt == FreshAttempt(b, hash(b), now)
  {}

  /** A dispatch succeeds exactly on a live, unexpired, long-enough persisted row of the same digest, and once. */
  lemma DispatchIff(a: Attempt, digest: Digest, chain: Chain, now: Time)
    requires RowOk(a)
    ensures Dispatch(Some(a), digest, chain, now).Ok? <==>
      && a.state.Persisted? && a.digest == digest && chain.issued && chain.unexpired && chain.held
      && a.binding.validBefore - now / 1_000_000 >= 604_800 && now >= a.persistedAt
    ensures Dispatch(Some(a), digest, chain, now).Ok? ==>
      var after := Dispatch(Some(a), digest, chain, now).value;
      && after == a.(state := Unknown, dispatchedAt := Some(now)) && RowOk(after)
      && forall d, c, t :: Dispatch(Some(after), d, c, t).Err?
  {}

  /** Each refusal of a dispatch; a clock behind the persist is the table's own conflict. */
  lemma DispatchRefusals(existing: Option<Attempt>, digest: Digest, chain: Chain, now: Time)
    requires existing.Some? ==> RowOk(existing.value)
    ensures var r := Dispatch(existing, digest, chain, now);
      && (r == Err(NotFound) <==> existing.None?)
      && (r == Err(GrantExpired) <==>
            existing.Some? && existing.value.digest == digest && existing.value.state == Persisted && chain.issued
            && (!chain.unexpired || (chain.held && existing.value.binding.validBefore - now / 1_000_000 < 604_800)))
      && (r.Err? ==> r.error in {NotFound, GrantExpired, AttemptConflict})
  {}

  /** An observation is recorded exactly when it moves a dispatched attempt forward without changing a recorded fact. */
  lemma ObserveIff(a: Attempt, o: Observation, now: Time)
    requires RowOk(a)
    ensures Observe(Some(a), o, now).Ok? <==>
      && Recordable(o) && (a.state.Unknown? || a.state.Pending?)
      && (a.transferId.Some? ==> a.transferId.value == o.transferId)
      && (a.batchTxHash.Some? && o.batchTxHash.Some? ==> a.batchTxHash == o.batchTxHash)
      && now >= (if a.observedAt.Some? then a.observedAt.value else a.dispatchedAt.value)
      && (a.state.Pending? && o.state.Pending? ==>
           || GatewayRank(Some(o.gateway)) > GatewayRank(a.gateway)
           || (Some(o.gateway) == a.gateway && a.batchTxHash.None? && o.batchTxHash.Some?))
    ensures Observe(Some(a), o, now).Ok? ==>
      var after := Observe(Some(a), o, now).value;
      && RowOk(after) && Grows(a, after)
      && after == Attempt(a.binding, a.digest, o.state, a.persistedAt, a.dispatchedAt, Some(now), Some(o.transferId),
                          Some(o.gateway), if o.batchTxHash.Some? then o.batchTxHash else a.batchTxHash)
    ensures Observe(Some(a), o, now).Err? ==>
      Observe(Some(a), o, now).error == if Recordable(o) then AttemptConflict else InputInvalid
  {}

  /** The closed input: pending before completion, or committed with the batch that completed it. */
  lemma RecordableIff(o: Observation)
    ensures Recordable(o) <==>
      || (o.state == Pending && o.gateway in {Received, Batched, Confirmed})
      || (o.state == Committed && o.gateway == Completed && o.batchTxHash != None)
  {}

  /**
   * Under a lease an observation is recorded exactly as without one, if the caller's generation is the lease's
   * and the lease has not run out; under any other lease nothing is recorded and nothing is wrong.
   */
  lemma ObserveLeasedIff(existing: Option<Attempt>, lease: Option<Lease>, generation: nat, o: Observation, now: Time)
    requires generation >= 1
    ensures var running := lease.Some? && lease.value.generation == generation
              && lease.value.until.Some? && now < lease.value.until.value;
      var r, plain := ObserveLeased(existing, lease, generation, o, now), Observe(existing, o, now);
      if !running then r == Ok(None)
      else if plain.Ok? then r == Ok(Some(plain.value))
      else r == Err(plain.error)
    ensures ObserveLeased(existing, lease, 0, o, now) == Err(InputInvalid)
  {}

  /**
   * An attempt can be claimed exactly while it is dispatched and not committed, was claimed fewer than ten
   * times and is under no running lease; the claim opens the next generation for 120 seconds.
   */
  lemma ClaimIff(a: Attempt, lease: Option<Lease>, now: Time)
    requires RowOk(a)
    ensures Claimable(a, lease, now) <==>
      && a.dispatchedAt.Some? && a.state != Committed
      && (lease.None? || (lease.value.count < 10 && (lease.value.until.None? || lease.value.until.value < now)))
    ensures Claimed(lease, now).until == Some(now + 120_000_000)
    ensures Claimed(lease, now).generation == 1 + (if lease.Some? then lease.value.generation else 0)
    ensures Claimed(lease, now).count == 1 + (if lease.Some? then lease.value.count else 0)
  {}

}
