/**
 * Agents and observers acting on payment attempts: every transaction runs its statement, then
 * commits or is lost; the reply of a commit may be lost; processes crash and retry; a process
 * sends only after the delivered success of its own dispatch record.
 */
module PaymentProtocol {
  import opened Prelude
  import opened PaymentAttempts

  datatype Purpose = ForPersist | ForDispatch | ForObservation(generation: nat)

  /** A transaction between its statement and its commit; it holds the rows of its grant. */
  datatype Tx = Tx(key: Key, before: Option<Attempt>, after: Attempt, purpose: Purpose)

  datatype Proc =
    | Idle
    | Open(tx: Tx)
    | MaySend(key: Key, digest: Digest)

  datatype Note = Note(key: Key, generation: nat)

  datatype State = State(
    rows: map<Key, Attempt>, leases: map<Key, Lease>, clock: Time, procs: map<nat, Proc>,
    sends: seq<Key>, recorded: seq<Note>)

  datatype Step =
    | Spawn(p: nat)
    | CallPersist(p: nat, org: string, binding: Binding, digest: Digest, chain: Chain, found: Option<Key>)
    | CallDispatch(p: nat, key: Key, digest: Digest, chain: Chain)
    | CallRecord(p: nat, key: Key, generation: nat, observation: Observation)
    | Commit(p: nat, delivered: bool)
    | Lose(p: nat)
    | Send(p: nat)
    | Crash(p: nat)
    | Claim(keys: set<Key>)
    | Release(key: Key, generation: nat)
    | Tick(to: Time)

  const START: State := State(map[], map[], 0, map[], [], [])

  function Row(s: State, key: Key): Option<Attempt> { if key in s.rows then Some(s.rows[key]) else None }
  function LeaseOf(s: State, key: Key): Option<Lease> { if key in s.leases then Some(s.leases[key]) else None }

  predicate IsOpen(s: State, p: nat) { p in s.procs && s.procs[p].Open? }

  ghost predicate KeyFree(s: State, key: Key) {
    forall p :: IsOpen(s, p) ==> s.procs[p].tx.key != key
  }

  ghost predicate GrantFree(s: State, org: string, grant: string) {
    forall p :: IsOpen(s, p) ==> !(s.procs[p].tx.key.org == org && s.procs[p].tx.after.binding.grantId == grant)
  }

  predicate OfGrant(s: State, key: Key, org: string, grant: string) {
    key in s.rows && key.org == org && s.rows[key].binding.grantId == grant
  }

  /** `found` names the attempt of a grant, or says that there is none. */
  ghost predicate FindsAttempt(s: State, org: string, grant: string, found: Option<Key>) {
    if found.Some? then OfGrant(s, found.value, org, grant) else forall key :: !OfGrant(s, key, org, grant)
  }

  /** One authorization nonce per payer, ever. */
  predicate NonceFree(s: State, b: Binding) {
    forall key :: key in s.rows ==> !(Lower(s.rows[key].binding.from) == Lower(b.from) && s.rows[key].binding.nonce == b.nonce)
  }

  /** A call starts from any process that has no transaction open. */
  predicate CanCall(s: State, p: nat) { p in s.procs && !s.procs[p].Open? }

  ghost predicate Enabled(s: State, step: Step) {
    match step
    case Spawn(p) => p !in s.procs
    case CallPersist(p, org, b, _, _, found) =>
      && CanCall(s, p) && FindsAttempt(s, org, b.grantId, found) && GrantFree(s, org, b.grantId)
      && KeyFree(s, Key(org, b.attemptId)) && (found.Some? ==> KeyFree(s, found.value))
    case CallDispatch(p, key, _, _) =>
      CanCall(s, p) && KeyFree(s, key) && (key in s.rows ==> GrantFree(s, key.org, s.rows[key].binding.grantId))
    case CallRecord(p, key, _, _) =>
      CanCall(s, p) && KeyFree(s, key) && (key in s.rows ==> GrantFree(s, key.org, s.rows[key].binding.grantId))
    case Commit(p, _) => IsOpen(s, p)
    case Lose(p) => IsOpen(s, p)
    case Send(p) => p in s.procs && s.procs[p].MaySend?
    case Crash(p) => p in s.procs
    case Claim(keys) =>
      forall key :: key in keys ==> key in s.rows && KeyFree(s, key) && Claimable(s.rows[key], LeaseOf(s, key), s.clock)
    case Release(key, _) => KeyFree(s, key)
    case Tick(to) => s.clock <= to
  }

  function SetProc(s: State, p: nat, proc: Proc): State { s.(procs := s.procs[p := proc]) }

  function Next(hash: Binding -> Digest, s: State, step: Step): State {
    match step
    case Spawn(p) => SetProc(s, p, Idle)
    case CallPersist(p, org, b, digest, chain, found) =>
      var existing := if found.Some? then Row(s, found.value) else None;
      var key := if found.Some? then found.value else Key(org, b.attemptId);
      (match Persist(hash, existing, Key(org, b.attemptId) in s.rows, b, digest, chain, s.clock)
       case Ok(r) => SetProc(s, p, Open(Tx(key, existing, r.attempt, ForPersist)))
       case Err(_) => SetProc(s, p, Idle))
    case CallDispatch(p, key, digest, chain) =>
      (match Dispatch(Row(s, key), digest, chain, s.clock)
       case Ok(after) => SetProc(s, p, Open(Tx(key, Row(s, key), after, ForDispatch)))
       case Err(_) => SetProc(s, p, Idle))
    case CallRecord(p, key, generation, o) =>
      (match ObserveLeased(Row(s, key), LeaseOf(s, key), generation, o, s.clock)
       case Ok(Some(after)) => SetProc(s, p, Open(Tx(key, Row(s, key), after, ForObservation(generation))))
       case _ => SetProc(s, p, Idle))
    case Commit(p, delivered) => if IsOpen(s, p) then CommitTx(s, p, s.procs[p].tx, delivered) else s
    case Lose(p) => SetProc(s, p, Idle)
    case Send(p) =>
      if p in s.procs && s.procs[p].MaySend?
      then SetProc(s, p, Idle).(sends := s.sends + [s.procs[p].key]) else s
    case Crash(p) => s.(procs := s.procs - {p})
    case Claim(keys) =>
      s.(leases := map key | key in s.leases.Keys + keys ::
        if key in keys then Claimed(LeaseOf(s, key), s.clock) else s.leases[key])
    case Release(key, generation) =>
      if key in s.leases && s.leases[key].generation == generation && s.leases[key].until.Some?
      then s.(leases := s.leases[key := s.leases[key].(until := None)]) else s
    case Tick(to) => s.(clock := to)
  }

  /** The commit of an open transaction; an insert that breaks the payer-nonce index rolls back. */
  function CommitTx(s: State, p: nat, tx: Tx, delivered: bool): State {
    if tx.before.None? && !NonceFree(s, tx.after.binding) then SetProc(s, p, Idle)
    else
      var t := s.(rows := s.rows[tx.key := tx.after]);
      match tx.purpose
      case ForPersist => SetProc(t, p, Idle)
      case ForDispatch => SetProc(t, p, if delivered then MaySend(tx.key, tx.after.digest) else Idle)
      case ForObservation(g) =>
        SetProc(t, p, Idle).(
          leases := if tx.key in s.leases then s.leases[tx.key := s.leases[tx.key].(until := None)] else s.leases,
          recorded := s.recorded + [Note(tx.key, g)])
  }

  ghost predicate RunsTo(hash: Binding -> Digest, s: State, steps: seq<Step>, t: State)
    decreases |steps|
  {
    if steps == [] then s == t
    else Enabled(s, steps[0]) && RunsTo(hash, Next(hash, s, steps[0]), steps[1..], t)
  }

  // ---- The invariant. ----

  predicate SameGrant(j: Key, a: Attempt, k: Key, b: Attempt) {
    j.org == k.org && a.binding.grantId == b.binding.grantId
  }

  ghost predicate RowsOk(s: State) {
    && (forall key :: key in s.rows ==> RowOk(s.rows[key]) && s.rows[key].binding.attemptId == key.attempt)
    && (forall j, k :: j in s.rows && k in s.rows && SameGrant(j, s.rows[j], k, s.rows[k]) ==> j == k)
  }

  /** An insert about to happen is the first attempt of its grant. */
  ghost predicate InsertOk(s: State, tx: Tx) {
    tx.purpose.ForPersist? && tx.after.state.Persisted? && FindsAttempt(s, tx.key.org, tx.after.binding.grantId, None)
  }

  predicate LeasedTo(s: State, key: Key, generation: nat) {
    key in s.leases && s.leases[key].generation == generation && s.leases[key].until.Some?
  }

  /** What an open transaction is about to do to the row it has locked. */
  ghost predicate TxOk(s: State, tx: Tx) {
    && tx.before == Row(s, tx.key) && RowOk(tx.after) && tx.after.binding.attemptId == tx.key.attempt
    && (tx.before.Some? ==> Grows(tx.before.value, tx.after))
    && (tx.before.None? ==> InsertOk(s, tx))
    && (tx.purpose.ForDispatch? ==> tx.before.Some? && tx.before.value.state.Persisted? && tx.after.state.Unknown?)
    && (tx.purpose.ForObservation? ==> Rank(tx.after.state) >= 2 && LeasedTo(s, tx.key, tx.purpose.generation))
  }

  /** Two open transactions touch different attempts of different grants. */
  predicate Apart(a: Tx, b: Tx) { a.key != b.key && !SameGrant(a.key, a.after, b.key, b.after) }

  ghost predicate TxsOk(s: State) {
    && (forall p :: IsOpen(s, p) ==> TxOk(s, s.procs[p].tx))
    && (forall p, q :: IsOpen(s, p) && IsOpen(s, q) && p != q ==> Apart(s.procs[p].tx, s.procs[q].tx))
  }

  predicate DispatchDurable(s: State, key: Key) {
    key in s.rows && Rank(s.rows[key].state) >= 1 && s.rows[key].dispatchedAt.Some?
  }

  predicate HoldsClearance(s: State, p: nat) { p in s.procs && s.procs[p].MaySend? }

  ghost predicate SendsOk(s: State) {
    && (forall i, j :: 0 <= i < j < |s.sends| ==> s.sends[i] != s.sends[j])
    && (forall key :: key in s.sends ==> DispatchDurable(s, key))
    && (forall p :: HoldsClearance(s, p) ==> ClearanceOk(s, s.procs[p].key, s.procs[p].digest))
    && (forall p, q :: HoldsClearance(s, p) && HoldsClearance(s, q) && p != q ==> s.procs[p].key != s.procs[q].key)
  }

  predicate ClearanceOk(s: State, key: Key, digest: Digest) {
    DispatchDurable(s, key) && key !in s.sends && digest == s.rows[key].digest
  }

  predicate LeaseOk(lease: Lease) { lease.generation == lease.count && 1 <= lease.count <= MAX_OBSERVATIONS }

  /** A recorded generation is spent: the lease has moved on or has been consumed. */
  predicate Spent(s: State, n: Note) {
    && n.key in s.leases && 1 <= n.generation <= s.leases[n.key].generation
    && (n.generation == s.leases[n.key].generation ==> s.leases[n.key].until.None?)
  }

  ghost predicate LeasesOk(s: State) {
    && (forall key :: key in s.leases ==> DispatchDurable(s, key) && LeaseOk(s.leases[key]))
    && (forall i, j :: 0 <= i < j < |s.recorded| ==> s.recorded[i] != s.recorded[j])
    && (forall n :: n in s.recorded ==> Spent(s, n))
  }

  ghost predicate Inv(s: State) { RowsOk(s) && TxsOk(s) && SendsOk(s) && LeasesOk(s) }

  // ---- Opening a transaction. ----

  /** A process that opens a lawful transaction apart from all others, or stays idle, keeps the invariant. */
  lemma OpenInv(s: State, p: nat, tx: Tx)
    requires Inv(s) && CanCall(s, p) && TxOk(s, tx)
    requires KeyFree(s, tx.key) && GrantFree(s, tx.key.org, tx.after.binding.grantId)
    ensures Inv(SetProc(s, p, Open(tx)))
  {
    var t := SetProc(s, p, Open(tx));
    forall q | IsOpen(t, q) ensures TxOk(t, t.procs[q].tx) {
      if q != p { assert IsOpen(s, q) && TxOk(s, s.procs[q].tx); }
      SameFactsSameTx(s, t, t.procs[q].tx);
    }
    forall q, r | IsOpen(t, q) && IsOpen(t, r) && q != r ensures Apart(t.procs[q].tx, t.procs[r].tx) {
      assert q != p ==> IsOpen(s, q);
      assert r != p ==> IsOpen(s, r);
    }
    ClearancesStay(s, t);
  }

  lemma IdleInv(s: State, p: nat)
    requires Inv(s)
    ensures Inv(SetProc(s, p, Idle)) && Inv(s.(procs := s.procs - {p}))
  {
    FewerProcs(s, SetProc(s, p, Idle));
    FewerProcs(s, s.(procs := s.procs - {p}));
  }

  /** Closing transactions and dropping clearances keeps the invariant. */
  lemma FewerProcs(s: State, t: State)
    requires Inv(s) && t == s.(procs := t.procs)
    requires forall q :: q in t.procs && !t.procs[q].Idle? ==> q in s.procs && s.procs[q] == t.procs[q]
    ensures Inv(t)
  {
    forall q | IsOpen(t, q) ensures TxOk(t, t.procs[q].tx) {
      assert IsOpen(s, q) && TxOk(s, s.procs[q].tx);
      SameFactsSameTx(s, t, t.procs[q].tx);
    }
    forall q, r | IsOpen(t, q) && IsOpen(t, r) && q != r ensures Apart(t.procs[q].tx, t.procs[r].tx) {
      assert IsOpen(s, q) && IsOpen(s, r);
    }
    ClearancesStay(s, t);
  }

  lemma SameFactsSameTx(s: State, t: State, tx: Tx)
    requires t.rows == s.rows && t.leases == s.leases && TxOk(s, tx)
    ensures TxOk(t, tx)
  {
    if tx.before.None? { assert forall key :: OfGrant(t, key, tx.key.org, tx.after.binding.grantId) ==> OfGrant(s, key, tx.key.org, tx.after.binding.grantId); }
  }

  lemma ClearancesStay(s: State, t: State)
    requires SendsOk(s) && LeasesOk(s) && RowsOk(s)
    requires t.rows == s.rows && t.leases == s.leases && t.sends == s.sends && t.recorded == s.recorded
    requires forall q :: HoldsClearance(t, q) ==> HoldsClearance(s, q) && s.procs[q] == t.procs[q]
    ensures SendsOk(t) && LeasesOk(t) && RowsOk(t)
  {
    forall key | key in t.sends ensures DispatchDurable(t, key) { assert DispatchDurable(s, key); }
    forall q | HoldsClearance(t, q) ensures ClearanceOk(t, t.procs[q].key, t.procs[q].digest) {
      assert ClearanceOk(s, s.procs[q].key, s.procs[q].digest);
    }
    forall key | key in t.leases ensures DispatchDurable(t, key) { assert DispatchDurable(s, key); }
    forall n | n in t.recorded ensures Spent(t, n) { assert Spent(s, n); }
  }

  lemma PersistInv(hash: Binding -> Digest, s: State, p: nat, org: string, b: Binding, digest: Digest, chain: Chain, found: Option<Key>)
    requires Inv(s) && Enabled(s, CallPersist(p, org, b, digest, chain, found))
    ensures Inv(Next(hash, s, CallPersist(p, org, b, digest, chain, found)))
  {
    var existing := if found.Some? then Row(s, found.value) else None;
    var taken := Key(org, b.attemptId) in s.rows;
    var r := Persist(hash, existing, taken, b, digest, chain, s.clock);
    if r.Ok? {
      PersistStoresBinding(hash, existing, taken, b, digest, chain, s.clock);
      var key := if found.Some? then found.value else Key(org, b.attemptId);
      var tx := Tx(key, existing, r.value.attempt, ForPersist);
      assert found.Some? ==> OfGrant(s, key, org, b.grantId);
      assert TxOk(s, tx);
      OpenInv(s, p, tx);
    } else {
      IdleInv(s, p);
    }
  }

  lemma DispatchInv(hash: Binding -> Digest, s: State, p: nat, key: Key, digest: Digest, chain: Chain)
    requires Inv(s) && Enabled(s, CallDispatch(p, key, digest, chain))
    ensures Inv(Next(hash, s, CallDispatch(p, key, digest, chain)))
  {
    var r := Dispatch(Row(s, key), digest, chain, s.clock);
    if r.Ok? {
      DispatchIff(s.rows[key], digest, chain, s.clock);
      var tx := Tx(key, Row(s, key), r.value, ForDispatch);
      assert TxOk(s, tx);
      OpenInv(s, p, tx);
    } else {
      IdleInv(s, p);
    }
  }

  lemma RecordInv(hash: Binding -> Digest, s: State, p: nat, key: Key, generation: nat, o: Observation)
    requires Inv(s) && Enabled(s, CallRecord(p, key, generation, o))
    ensures Inv(Next(hash, s, CallRecord(p, key, generation, o)))
  {
    var r := ObserveLeased(Row(s, key), LeaseOf(s, key), generation, o, s.clock);
    if r.Ok? && r.value.Some? {
      ObserveIff(s.rows[key], o, s.clock);
      var tx := Tx(key, Row(s, key), r.value.value, ForObservation(generation));
      assert LeasedTo(s, key, generation);
      assert TxOk(s, tx);
      OpenInv(s, p, tx);
    } else {
      IdleInv(s, p);
    }
  }

  // ---- Commit. ----

  /** Facts that only grow with the rows. */
  lemma RowsGrow(s: State, t: State, key: Key, after: Attempt)
    requires t.rows == s.rows[key := after]
    requires key in s.rows ==> Grows(s.rows[key], after)
    ensures forall k :: DispatchDurable(s, k) ==> DispatchDurable(t, k)
  {}

  lemma CommitRows(s: State, p: nat, t: State)
    requires Inv(s) && IsOpen(s, p) && t.rows == s.rows[s.procs[p].tx.key := s.procs[p].tx.after]
    ensures RowsOk(t)
  {
    var tx := s.procs[p].tx;
    assert TxOk(s, tx);
    forall j, k | j in t.rows && k in t.rows && SameGrant(j, t.rows[j], k, t.rows[k]) ensures j == k {
      if tx.before.None? {
        assert j != tx.key ==> OfGrant(s, j, j.org, s.rows[j].binding.grantId);
        assert k != tx.key ==> OfGrant(s, k, k.org, s.rows[k].binding.grantId);
      }
    }
  }

  lemma CommitTxs(s: State, p: nat, t: State)
    requires Inv(s) && IsOpen(s, p) && t.rows == s.rows[s.procs[p].tx.key := s.procs[p].tx.after]
    requires forall q :: IsOpen(t, q) ==> q != p && q in s.procs && s.procs[q] == t.procs[q]
    requires forall key :: key in s.leases && key != s.procs[p].tx.key ==> key in t.leases && t.leases[key] == s.leases[key]
    ensures TxsOk(t)
  {
    var tx := s.procs[p].tx;
    assert TxOk(s, tx);
    forall q | IsOpen(t, q) ensures TxOk(t, t.procs[q].tx) {
      var other := t.procs[q].tx;
      assert IsOpen(s, q) && TxOk(s, other) && Apart(tx, other);
      if other.before.None? {
        forall key ensures !OfGrant(t, key, other.key.org, other.after.binding.grantId) {
          assert !OfGrant(s, key, other.key.org, other.after.binding.grantId);
        }
      }
    }
    forall q, r | IsOpen(t, q) && IsOpen(t, r) && q != r ensures Apart(t.procs[q].tx, t.procs[r].tx) {
      assert IsOpen(s, q) && IsOpen(s, r);
    }
  }

  lemma CommitSends(s: State, p: nat, t: State, proc: Proc)
    requires Inv(s) && IsOpen(s, p) && t.rows == s.rows[s.procs[p].tx.key := s.procs[p].tx.after]
    requires t.procs == s.procs[p := proc] && t.sends == s.sends
    requires proc.Idle? || (s.procs[p].tx.purpose.ForDispatch? && proc == MaySend(s.procs[p].tx.key, s.procs[p].tx.after.digest))
    ensures SendsOk(t)
  {
    var tx := s.procs[p].tx;
    assert TxOk(s, tx);
    RowsGrow(s, t, tx.key, tx.after);
    forall q | HoldsClearance(t, q) ensures ClearanceOk(t, t.procs[q].key, t.procs[q].digest) {
      if q != p { assert HoldsClearance(s, q) && ClearanceOk(s, s.procs[q].key, s.procs[q].digest); }
      assert q == p ==> !DispatchDurable(s, tx.key);
    }
    forall q, r | HoldsClearance(t, q) && HoldsClearance(t, r) && q != r ensures t.procs[q].key != t.procs[r].key {
      assert q != p ==> HoldsClearance(s, q) && ClearanceOk(s, s.procs[q].key, s.procs[q].digest);
      assert r != p ==> HoldsClearance(s, r) && ClearanceOk(s, s.procs[r].key, s.procs[r].digest);
    }
  }

  lemma CommitLeases(s: State, p: nat, t: State)
    requires Inv(s) && IsOpen(s, p) && t.rows == s.rows[s.procs[p].tx.key := s.procs[p].tx.after]
    requires var u := CommitTx(s, p, s.procs[p].tx, false); t.rows == u.rows && t.leases == u.leases && t.recorded == u.recorded
    ensures LeasesOk(t)
  {
    var tx := s.procs[p].tx;
    assert TxOk(s, tx);
    RowsGrow(s, t, tx.key, tx.after);
    if tx.purpose.ForObservation? {
      ObservationSpends(s, t, tx.key, tx.purpose.generation);
    } else {
      assert t.leases == s.leases && t.recorded == s.recorded;
      forall n | n in t.recorded ensures Spent(t, n) { assert Spent(s, n); }
    }
  }

  /** Recording consumes the lease it was made under. */
  lemma ObservationSpends(s: State, t: State, key: Key, generation: nat)
    requires LeasesOk(s) && LeasedTo(s, key, generation)
    requires t.leases == s.leases[key := s.leases[key].(until := None)] && t.recorded == s.recorded + [Note(key, generation)]
    requires forall k :: DispatchDurable(s, k) ==> DispatchDurable(t, k)
    ensures LeasesOk(t)
  {
    var note := Note(key, generation);
    assert note in s.recorded ==> Spent(s, note);
    forall n | n in t.recorded ensures Spent(t, n) { assert n in s.recorded ==> Spent(s, n); }
  }

  lemma CommitShape(s: State, p: nat, tx: Tx, delivered: bool)
    requires tx.before.Some? || NonceFree(s, tx.after.binding)
    ensures var t := CommitTx(s, p, tx, delivered);
      && t.rows == s.rows[tx.key := tx.after] && t.sends == s.sends && p in t.procs && t.procs == s.procs[p := t.procs[p]]
      && (t.procs[p].Idle? || (tx.purpose.ForDispatch? && t.procs[p] == MaySend(tx.key, tx.after.digest)))
      && (forall key :: key in s.leases && key != tx.key ==> key in t.leases && t.leases[key] == s.leases[key])
    ensures var t, u := CommitTx(s, p, tx, delivered), CommitTx(s, p, tx, false);
      t.rows == u.rows && t.leases == u.leases && t.recorded == u.recorded
  {}

  lemma CommitInv(s: State, p: nat, delivered: bool)
    requires Inv(s) && IsOpen(s, p)
    ensures Inv(CommitTx(s, p, s.procs[p].tx, delivered))
  {
    var tx := s.procs[p].tx;
    if tx.before.None? && !NonceFree(s, tx.after.binding) {
      IdleInv(s, p);
    } else {
      CommitShape(s, p, tx, delivered);
      CommittedInv(s, p, CommitTx(s, p, tx, delivered));
    }
  }

  lemma CommittedInv(s: State, p: nat, t: State)
    requires Inv(s) && IsOpen(s, p) && t.rows == s.rows[s.procs[p].tx.key := s.procs[p].tx.after]
    requires t.sends == s.sends && p in t.procs && t.procs == s.procs[p := t.procs[p]]
    requires t.procs[p].Idle? || (s.procs[p].tx.purpose.ForDispatch? && t.procs[p] == MaySend(s.procs[p].tx.key, s.procs[p].tx.after.digest))
    requires forall key :: key in s.leases && key != s.procs[p].tx.key ==> key in t.leases && t.leases[key] == s.leases[key]
    requires var u := CommitTx(s, p, s.procs[p].tx, false); t.rows == u.rows && t.leases == u.leases && t.recorded == u.recorded
    ensures Inv(t)
  {
    CommitRows(s, p, t);
    CommitTxs(s, p, t);
    CommitSends(s, p, t, t.procs[p]);
    CommitLeases(s, p, t);
  }

  // ---- The remaining steps. ----

  lemma SentTxs(u: State, key: Key)
    requires TxsOk(u)
    ensures TxsOk(u.(sends := u.sends + [key]))
  {
    var t := u.(sends := u.sends + [key]);
    forall q | IsOpen(t, q) ensures TxOk(t, t.procs[q].tx) {
      assert IsOpen(u, q) && TxOk(u, u.procs[q].tx);
      SameFactsSameTx(u, t, t.procs[q].tx);
    }
    forall q, r | IsOpen(t, q) && IsOpen(t, r) && q != r ensures Apart(t.procs[q].tx, t.procs[r].tx) {
      assert IsOpen(u, q) && IsOpen(u, r);
    }
  }

  lemma SentSends(u: State, key: Key)
    requires SendsOk(u) && DispatchDurable(u, key) && key !in u.sends
    requires forall q :: HoldsClearance(u, q) ==> u.procs[q].key != key
    ensures SendsOk(u.(sends := u.sends + [key]))
  {
    var t := u.(sends := u.sends + [key]);
    forall k | k in t.sends ensures DispatchDurable(t, k) { assert k == key || k in u.sends; assert DispatchDurable(u, k); }
    forall q | HoldsClearance(t, q) ensures ClearanceOk(t, t.procs[q].key, t.procs[q].digest) {
      assert HoldsClearance(u, q) && ClearanceOk(u, u.procs[q].key, u.procs[q].digest);
    }
    forall q, r | HoldsClearance(t, q) && HoldsClearance(t, r) && q != r ensures t.procs[q].key != t.procs[r].key {
      assert HoldsClearance(u, q) && HoldsClearance(u, r);
    }
  }

  lemma SendInv(hash: Binding -> Digest, s: State, p: nat)
    requires Inv(s) && Enabled(s, Send(p))
    ensures Inv(Next(hash, s, Send(p)))
  {
    var key := s.procs[p].key;
    var u := SetProc(s, p, Idle);
    var t := Next(hash, s, Send(p));
    IdleInv(s, p);
    assert HoldsClearance(s, p) && ClearanceOk(s, key, s.procs[p].digest);
    assert DispatchDurable(u, key);
    forall q | HoldsClearance(u, q) ensures u.procs[q].key != key { assert HoldsClearance(s, q) && q != p; }
    assert t == u.(sends := u.sends + [key]);
    SentTxs(u, key);
    SentSends(u, key);
    forall k | k in t.leases ensures DispatchDurable(t, k) { assert DispatchDurable(u, k); }
    forall n | n in t.recorded ensures Spent(t, n) { assert Spent(u, n); }
  }

  /** Steps that change only leases: claims and releases leave locked leases alone and never revive a spent one. */
  lemma LeaseTxs(s: State, t: State)
    requires TxsOk(s) && t == s.(leases := t.leases)
    requires forall key :: key in s.leases && !KeyFree(s, key) ==> key in t.leases && t.leases[key] == s.leases[key]
    ensures TxsOk(t)
  {
    forall q | IsOpen(t, q) ensures TxOk(t, t.procs[q].tx) {
      assert IsOpen(s, q) && TxOk(s, s.procs[q].tx);
      assert !KeyFree(s, s.procs[q].tx.key);
      var tx := s.procs[q].tx;
      assert forall key :: OfGrant(t, key, tx.key.org, tx.after.binding.grantId) ==> OfGrant(s, key, tx.key.org, tx.after.binding.grantId);
    }
    forall q, r | IsOpen(t, q) && IsOpen(t, r) && q != r ensures Apart(t.procs[q].tx, t.procs[r].tx) {
      assert IsOpen(s, q) && IsOpen(s, r);
    }
  }

  lemma LeaseInv(s: State, t: State)
    requires Inv(s) && t == s.(leases := t.leases)
    requires forall key :: key in s.leases && !KeyFree(s, key) ==> key in t.leases && t.leases[key] == s.leases[key]
    requires forall key :: key in t.leases ==> DispatchDurable(s, key) && LeaseOk(t.leases[key])
    requires forall key :: key in s.leases ==> key in t.leases && t.leases[key].generation >= s.leases[key].generation
    requires forall key :: key in s.leases && t.leases[key].generation == s.leases[key].generation && s.leases[key].until.None? ==>
      t.leases[key].until.None?
    ensures Inv(t)
  {
    LeaseTxs(s, t);
    forall q | HoldsClearance(t, q) ensures ClearanceOk(t, t.procs[q].key, t.procs[q].digest) {
      assert HoldsClearance(s, q) && ClearanceOk(s, s.procs[q].key, s.procs[q].digest);
    }
    forall q, r | HoldsClearance(t, q) && HoldsClearance(t, r) && q != r ensures t.procs[q].key != t.procs[r].key {
      assert HoldsClearance(s, q) && HoldsClearance(s, r);
    }
    forall key | key in t.sends ensures DispatchDurable(t, key) { assert DispatchDurable(s, key); }
    forall key | key in t.leases ensures DispatchDurable(t, key) { assert DispatchDurable(s, key); }
    forall n | n in t.recorded ensures Spent(t, n) { assert Spent(s, n); }
  }

  lemma ClaimedLeases(hash: Binding -> Digest, s: State, keys: set<Key>)
    requires RowsOk(s) && LeasesOk(s) && Enabled(s, Claim(keys))
    ensures var t := Next(hash, s, Claim(keys)); forall key :: key in t.leases ==> DispatchDurable(s, key) && LeaseOk(t.leases[key])
  {
    var t := Next(hash, s, Claim(keys));
    forall key | key in t.leases ensures DispatchDurable(s, key) && LeaseOk(t.leases[key]) {
      if key in keys { assert Claimable(s.rows[key], LeaseOf(s, key), s.clock) && RowOk(s.rows[key]); }
      assert key in s.leases ==> DispatchDurable(s, key) && LeaseOk(s.leases[key]);
    }
  }

  lemma ClaimInv(hash: Binding -> Digest, s: State, keys: set<Key>)
    requires Inv(s) && Enabled(s, Claim(keys))
    ensures Inv(Next(hash, s, Claim(keys)))
  {
    ClaimedLeases(hash, s, keys);
    LeaseInv(s, Next(hash, s, Claim(keys)));
  }

  lemma ReleaseInv(hash: Binding -> Digest, s: State, key: Key, generation: nat)
    requires Inv(s) && Enabled(s, Release(key, generation))
    ensures Inv(Next(hash, s, Release(key, generation)))
  {
    var t := Next(hash, s, Release(key, generation));
    if t == s { return; }
    forall k | k in t.leases ensures DispatchDurable(s, k) && LeaseOk(t.leases[k]) {
      assert DispatchDurable(s, k) && LeaseOk(s.leases[k]);
    }
    LeaseInv(s, t);
  }

  lemma NextInv(hash: Binding -> Digest, s: State, step: Step)
    requires Inv(s) && Enabled(s, step)
    ensures Inv(Next(hash, s, step))
  {
    match step
    case Spawn(p) => IdleInv(s, p);
    case CallPersist(p, org, b, digest, chain, found) => PersistInv(hash, s, p, org, b, digest, chain, found);
    case CallDispatch(p, key, digest, chain) => DispatchInv(hash, s, p, key, digest, chain);
    case CallRecord(p, key, generation, o) => RecordInv(hash, s, p, key, generation, o);
    case Commit(p, delivered) => CommitInv(s, p, delivered);
    case Lose(p) => IdleInv(s, p);
    case Send(p) => SendInv(hash, s, p);
    case Crash(p) => IdleInv(s, p);
    case Claim(keys) => ClaimInv(hash, s, keys);
    case Release(key, generation) => ReleaseInv(hash, s, key, generation);
    case Tick(to) => TickInv(s, to);
  }

  lemma TickInv(s: State, to: Time)
    requires Inv(s)
    ensures Inv(s.(clock := to))
  {
    var u := s.(clock := to);
    forall q | IsOpen(u, q) ensures TxOk(u, u.procs[q].tx) {
      assert IsOpen(s, q) && TxOk(s, s.procs[q].tx);
      SameFactsSameTx(s, u, u.procs[q].tx);
    }
    forall q, r | IsOpen(u, q) && IsOpen(u, r) && q != r ensures Apart(u.procs[q].tx, u.procs[r].tx) {
      assert IsOpen(s, q) && IsOpen(s, r);
    }
    ClearancesStay(s, u);
  }

  lemma {:induction false} RunInv(hash: Binding -> Digest, s: State, steps: seq<Step>, t: State)
    requires Inv(s) && RunsTo(hash, s, steps, t)
    ensures Inv(t)
    decreases |steps|
  {
    if steps != [] {
      NextInv(hash, s, steps[0]);
      RunInv(hash, Next(hash, s, steps[0]), steps[1..], t);
    }
  }

  // ---- The theorems. ----

  /** Whatever crashes, retries, lost replies and observers do, no attempt is sent twice. */
  lemma SentAtMostOnce(hash: Binding -> Digest, steps: seq<Step>, s: State)
    requires RunsTo(hash, START, steps, s)
    ensures forall i, j :: 0 <= i < j < |s.sends| ==> s.sends[i] != s.sends[j]
  {
    RunInv(hash, START, steps, s);
  }

  /** A process that may send holds the only clearance of an attempt whose dispatch is durable, unsent, and of its digest. */
  lemma SendFollowsDurableDispatch(hash: Binding -> Digest, steps: seq<Step>, s: State, p: nat)
    requires RunsTo(hash, START, steps, s) && Enabled(s, Send(p))
    ensures DispatchDurable(s, s.procs[p].key) && s.procs[p].key !in s.sends
    ensures s.rows[s.procs[p].key].digest == s.procs[p].digest
    ensures forall q :: Enabled(s, Send(q)) && s.procs[q].key == s.procs[p].key ==> q == p
  {
    RunInv(hash, START, steps, s);
    ClearanceIsFirm(s, p);
    forall q | Enabled(s, Send(q)) && s.procs[q].key == s.procs[p].key ensures q == p { ClearanceIsSole(s, p, q); }
  }

  lemma ClearanceIsFirm(s: State, p: nat)
    requires SendsOk(s) && HoldsClearance(s, p)
    ensures ClearanceOk(s, s.procs[p].key, s.procs[p].digest)
  {}

  lemma ClearanceIsSole(s: State, p: nat, q: nat)
    requires SendsOk(s) && HoldsClearance(s, p) && HoldsClearance(s, q) && s.procs[q].key == s.procs[p].key
    ensures q == p
  {}

  lemma RowsStay(hash: Binding -> Digest, s: State, step: Step)
    requires !step.Commit?
    ensures Next(hash, s, step).rows == s.rows
  {}

  lemma CommitGrows(s: State, p: nat, delivered: bool, key: Key)
    requires IsOpen(s, p) && TxOk(s, s.procs[p].tx) && key in s.rows
    ensures var t := CommitTx(s, p, s.procs[p].tx, delivered); key in t.rows && Grows(s.rows[key], t.rows[key])
  {}

  lemma NextGrows(hash: Binding -> Digest, s: State, step: Step, key: Key)
    requires Inv(s) && Enabled(s, step) && key in s.rows
    ensures var t := Next(hash, s, step); key in t.rows && Grows(s.rows[key], t.rows[key])
  {
    if step.Commit? {
      CommitGrows(s, step.p, step.delivered, key);
    } else {
      RowsStay(hash, s, step);
    }
  }

  lemma {:induction false} RunGrows(hash: Binding -> Digest, s: State, steps: seq<Step>, t: State, key: Key)
    requires Inv(s) && RunsTo(hash, s, steps, t) && key in s.rows
    ensures key in t.rows && Grows(s.rows[key], t.rows[key])
    decreases |steps|
  {
    if steps != [] {
      var mid := Next(hash, s, steps[0]);
      NextGrows(hash, s, steps[0], key);
      NextInv(hash, s, steps[0]);
      RunGrows(hash, mid, steps[1..], t, key);
      GrowsTransitively(s.rows[key], mid.rows[key], t.rows[key]);
    }
  }

  /** From any point of a run on, an attempt keeps its binding and recorded facts and its state only rises. */
  lemma AttemptsOnlyGrow(hash: Binding -> Digest, before: seq<Step>, s: State, after: seq<Step>, t: State, key: Key)
    requires RunsTo(hash, START, before, s) && RunsTo(hash, s, after, t) && key in s.rows
    ensures key in t.rows && Grows(s.rows[key], t.rows[key])
  {
    RunInv(hash, START, before, s);
    RunGrows(hash, s, after, t, key);
  }

  /** Every reachable row has the shape the projection demands, so no reachable row makes the store fail on its output. */
  lemma ReachableRowsProject(hash: Binding -> Digest, steps: seq<Step>, s: State, key: Key)
    requires RunsTo(hash, START, steps, s) && key in s.rows
    ensures ShapeAccepted(s.rows[key]) && StateShape(s.rows[key]) && s.rows[key].binding.attemptId == key.attempt
  {
    RunInv(hash, START, steps, s);
    ShapesCompared(s.rows[key]);
  }

  predicate NobodyCleared(s: State, key: Key) {
    forall p :: p in s.procs && s.procs[p].MaySend? ==> s.procs[p].key != key
  }

  /** A clearance is older than the step, or is the delivered success of a dispatch record. */
  lemma ClearanceFrom(hash: Binding -> Digest, s: State, step: Step, q: nat)
    requires Enabled(s, step) && HoldsClearance(Next(hash, s, step), q)
    ensures
      || (HoldsClearance(s, q) && Next(hash, s, step).procs[q] == s.procs[q])
      || (step.Commit? && IsOpen(s, q) && s.procs[q].tx.purpose.ForDispatch? && Next(hash, s, step).procs[q].key == s.procs[q].tx.key)
  {}

  lemma SendsFrom(hash: Binding -> Digest, s: State, step: Step, key: Key)
    requires Enabled(s, step) && key in Next(hash, s, step).sends
    ensures key in s.sends || (step.Send? && HoldsClearance(s, step.p) && s.procs[step.p].key == key)
  {}

  lemma SendsKept(hash: Binding -> Digest, s: State, step: Step, key: Key)
    requires key in s.sends
    ensures key in Next(hash, s, step).sends
  {}

  lemma StaysUncleared(hash: Binding -> Digest, s: State, step: Step, key: Key)
    requires Inv(s) && Enabled(s, step) && DispatchDurable(s, key) && NobodyCleared(s, key)
    ensures var t := Next(hash, s, step);
      DispatchDurable(t, key) && NobodyCleared(t, key) && (key in t.sends <==> key in s.sends)
  {
    var t := Next(hash, s, step);
    NextGrows(hash, s, step, key);
    forall q | HoldsClearance(t, q) ensures t.procs[q].key != key {
      ClearanceFrom(hash, s, step, q);
      if IsOpen(s, q) { assert TxOk(s, s.procs[q].tx); }
    }
    if key in s.sends { SendsKept(hash, s, step, key); }
    if key in t.sends { SendsFrom(hash, s, step, key); }
  }

  lemma {:induction false} RunUncleared(hash: Binding -> Digest, s: State, steps: seq<Step>, t: State, key: Key)
    requires Inv(s) && RunsTo(hash, s, steps, t) && DispatchDurable(s, key) && NobodyCleared(s, key)
    ensures key in t.sends <==> key in s.sends
    decreases |steps|
  {
    if steps != [] {
      StaysUncleared(hash, s, steps[0], key);
      NextInv(hash, s, steps[0]);
      RunUncleared(hash, Next(hash, s, steps[0]), steps[1..], t, key);
    }
  }

  /** A dispatched attempt whose clearance is gone, because its reply was lost or its process died, is never sent again. */
  lemma LostClearanceIsFinal(hash: Binding -> Digest, before: seq<Step>, s: State, after: seq<Step>, t: State, key: Key)
    requires RunsTo(hash, START, before, s) && RunsTo(hash, s, after, t) && DispatchDurable(s, key) && NobodyCleared(s, key)
    ensures key in t.sends <==> key in s.sends
  {
    RunInv(hash, START, before, s);
    RunUncleared(hash, s, after, t, key);
  }

  function Recordings(recorded: seq<Note>, key: Key): nat {
    if recorded == [] then 0 else Recordings(recorded[..|recorded| - 1], key) + (if recorded[|recorded| - 1].key == key then 1 else 0)
  }

  function Generations(recorded: seq<Note>, key: Key): set<nat> {
    set n | n in recorded && n.key == key :: n.generation
  }

  lemma {:induction false} RecordingsAreGenerations(recorded: seq<Note>, key: Key)
    requires forall i, j :: 0 <= i < j < |recorded| ==> recorded[i] != recorded[j]
    ensures Recordings(recorded, key) == |Generations(recorded, key)|
  {
    if recorded != [] {
      var front, last := recorded[..|recorded| - 1], recorded[|recorded| - 1];
      assert recorded == front + [last];
      RecordingsAreGenerations(front, key);
      if last.key == key {
        assert Generations(recorded, key) == Generations(front, key) + {last.generation};
        assert forall g :: g in Generations(front, key) ==> Note(key, g) in front;
        assert Note(key, last.generation) == last && last !in front;
      } else {
        assert Generations(recorded, key) == Generations(front, key);
      }
    }
  }

  lemma {:induction false} BoundedCount(s: set<nat>, n: nat)
    requires forall x :: x in s ==> 1 <= x <= n
    ensures |s| <= n
  {
    if n == 0 {
      assert forall x :: x !in s;
      assert s == {};
    } else {
      BoundedCount(s - {n}, n - 1);
      assert s <= (s - {n}) + {n};
      if n in s { assert s == (s - {n}) + {n}; } else { assert s == s - {n}; }
    }
  }

  /** Observers record an attempt at most once per lease generation, so at most ten times in all, and only after its dispatch. */
  lemma ObservationsAreFenced(hash: Binding -> Digest, steps: seq<Step>, s: State, key: Key)
    requires RunsTo(hash, START, steps, s)
    ensures Recordings(s.recorded, key) <= 10
    ensures forall i, j :: 0 <= i < j < |s.recorded| ==> s.recorded[i] != s.recorded[j]
    ensures key in s.leases ==> s.leases[key].count <= 10 && DispatchDurable(s, key)
  {
    RunInv(hash, START, steps, s);
    RecordingsAreGenerations(s.recorded, key);
    forall g | g in Generations(s.recorded, key) ensures 1 <= g <= 10 {
      assert Note(key, g) in s.recorded && Spent(s, Note(key, g)) && LeaseOk(s.leases[key]);
    }
    BoundedCount(Generations(s.recorded, key), 10);
  }

  // ---- What single steps do. ----

  /** Another stored attempt already holds the payer and nonce. */
  predicate NonceTaken(s: State, b: Binding) {
    exists key :: key in s.rows && Lower(s.rows[key].binding.from) == Lower(b.from) && s.rows[key].binding.nonce == b.nonce
  }

  /**
   * A commit writes its one row and nothing else, unless it inserts a payer and nonce that are taken; only
   * a delivered dispatch clears its process to send; only an observation is noted, and it ends its lease.
   */
  lemma CommitEffects(hash: Binding -> Digest, s: State, p: nat, delivered: bool)
    requires IsOpen(s, p)
    ensures var tx, t := s.procs[p].tx, Next(hash, s, Commit(p, delivered));
      var refused := tx.before.None? && NonceTaken(s, tx.after.binding);
      && t.rows == (if refused then s.rows else s.rows[tx.key := tx.after])
      && t.procs == s.procs[p := if !refused && tx.purpose.ForDispatch? && delivered then MaySend(tx.key, tx.after.digest) else Idle]
      && t.sends == s.sends && t.clock == s.clock
      && t.recorded == s.recorded + (if !refused && tx.purpose.ForObservation? then [Note(tx.key, tx.purpose.generation)] else [])
      && t.leases.Keys == s.leases.Keys
      && forall key :: key in s.leases ==>
           t.leases[key] == if key == tx.key && !refused && tx.purpose.ForObservation?
                            then s.leases[key].(until := None) else s.leases[key]
  {
    var tx := s.procs[p].tx;
    assert NonceTaken(s, tx.after.binding) <==> !NonceFree(s, tx.after.binding);
  }

  /** A release ends the lease of its own generation and keeps both counts; under any other generation it changes nothing. */
  lemma ReleaseEffects(hash: Binding -> Digest, s: State, key: Key, generation: nat)
    ensures var t := Next(hash, s, Release(key, generation));
      && t == s.(leases := t.leases) && t.leases.Keys == s.leases.Keys
      && (forall k :: k in s.leases && k != key ==> t.leases[k] == s.leases[k])
      && (key in s.leases ==>
            && t.leases[key].generation == s.leases[key].generation && t.leases[key].count == s.leases[key].count
            && t.leases[key].until == if s.leases[key].generation == generation then None else s.leases[key].until)
  {}

  /** A claim leases exactly the attempts it names, each for 120 seconds under its next generation. */
  lemma ClaimEffects(hash: Binding -> Digest, s: State, keys: set<Key>)
    ensures var t := Next(hash, s, Claim(keys));
      && t == s.(leases := t.leases) && t.leases.Keys == s.leases.Keys + keys
      && (forall k :: k in s.leases && k !in keys ==> t.leases[k] == s.leases[k])
      && forall k :: k in keys ==>
           var before := if k in s.leases then s.leases[k] else Lease(0, None, 0);
           t.leases[k] == Lease(before.generation + 1, Some(s.clock + 120_000_000), before.count + 1)
  {}

  /** A statement that succeeds leaves its process with the one row to commit; one that fails, or records nothing, leaves it idle. */
  lemma CallEffects(hash: Binding -> Digest, s: State, p: nat, key: Key, digest: Digest, chain: Chain, g: nat, o: Observation)
    ensures var t, r := Next(hash, s, CallDispatch(p, key, digest, chain)), Dispatch(Row(s, key), digest, chain, s.clock);
      t == s.(procs := s.procs[p := if r.Ok? then Open(Tx(key, Row(s, key), r.value, ForDispatch)) else Idle])
    ensures var t, r := Next(hash, s, CallRecord(p, key, g, o)), ObserveLeased(Row(s, key), LeaseOf(s, key), g, o, s.clock);
      t == s.(procs := s.procs[p := if r.Ok? && r.value.Some?
                                    then Open(Tx(key, Row(s, key), r.value.value, ForObservation(g))) else Idle])
    ensures p in s.procs && s.procs[p] == MaySend(key, digest) ==>
      Next(hash, s, Send(p)) == s.(procs := s.procs[p := Idle], sends := s.sends + [key])
  {}

  // ---- The protocol does send. ----

  const SAMPLE: Binding := Binding("g", "a", "t", "r", "l", "x", "y", 1, 0, 604_800, "n")
  const SAMPLE_CHAIN: Chain := Chain("a", "r", 1, "y", true, true, true)
  const SAMPLE_KEY: Key := Key("o", "t")

  lemma OneStep(hash: Binding -> Digest, s: State, step: Step, rest: seq<Step>, t: State)
    requires Enabled(s, step) && RunsTo(hash, Next(hash, s, step), rest, t)
    ensures RunsTo(hash, s, [step] + rest, t)
  {
    assert ([step] + rest)[1..] == rest;
  }

  lemma SamplePersists(hash: Binding -> Digest)
    ensures Persist(hash, None, false, SAMPLE, hash(SAMPLE), SAMPLE_CHAIN, 0)
      == Ok(Persisting(false, FreshAttempt(SAMPLE, hash(SAMPLE), 0)))
  {
    assert |Lower("x")| == 1 && |Lower("y")| == 1 && Lower("x")[0] == 'x' && Lower("y")[0] == 'y';
    assert Lower("y") == "y";
  }

  /** A persisted attempt of a live grant, with an idle agent. */
  function Ready(hash: Binding -> Digest): State {
    State(map[SAMPLE_KEY := FreshAttempt(SAMPLE, hash(SAMPLE), 0)], map[], 0, map[0 := Idle], [], [])
  }

  lemma SampleDispatches(hash: Binding -> Digest) returns (steps: seq<Step>, s: State)
    ensures RunsTo(hash, Ready(hash), steps, s) && |s.sends| == 1
  {
    var row := FreshAttempt(SAMPLE, hash(SAMPLE), 0);
    var sent := row.(state := Unknown, dispatchedAt := Some(0));
    var call := CallDispatch(0, SAMPLE_KEY, hash(SAMPLE), SAMPLE_CHAIN);
    var s1 := Next(hash, Ready(hash), call);
    DispatchIff(row, hash(SAMPLE), SAMPLE_CHAIN, 0);
    assert s1.procs[0] == Open(Tx(SAMPLE_KEY, Some(row), sent, ForDispatch));
    var s2 := Next(hash, s1, Commit(0, true));
    assert s2.procs[0] == MaySend(SAMPLE_KEY, hash(SAMPLE)) && s2.sends == [];
    s := Next(hash, s2, Send(0));
    assert RunsTo(hash, s, [], s);
    OneStep(hash, s2, Send(0), [], s);
    OneStep(hash, s1, Commit(0, true), [Send(0)] + [], s);
    OneStep(hash, Ready(hash), call, [Commit(0, true)] + ([Send(0)] + []), s);
    steps := [call] + ([Commit(0, true)] + ([Send(0)] + []));
  }

  /** One agent persists, records its dispatch and sends. */
  lemma SomeRunSends(hash: Binding -> Digest) returns (steps: seq<Step>, s: State)
    ensures RunsTo(hash, START, steps, s) && |s.sends| == 1
  {
    var row := FreshAttempt(SAMPLE, hash(SAMPLE), 0);
    var call := CallPersist(0, "o", SAMPLE, hash(SAMPLE), SAMPLE_CHAIN, None);
    SamplePersists(hash);
    var s1 := Next(hash, START, Spawn(0));
    var s2 := Next(hash, s1, call);
    assert s2.procs[0] == Open(Tx(SAMPLE_KEY, None, row, ForPersist));
    var s3 := Next(hash, s2, Commit(0, true));
    assert s3 == Ready(hash);
    var more, t := SampleDispatches(hash);
    s := t;
    OneStep(hash, s2, Commit(0, true), more, s);
    OneStep(hash, s1, call, [Commit(0, true)] + more, s);
    OneStep(hash, START, Spawn(0), [call] + ([Commit(0, true)] + more), s);
    steps := [Spawn(0)] + ([call] + ([Commit(0, true)] + more));
  }
}
