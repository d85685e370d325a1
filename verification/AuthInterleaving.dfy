/**
 * Any number of repository transactions, interleaved statement by statement over the committed
 * tables, with exclusive locks held to the end, crashes and rollbacks at any point, a moving clock,
 * and the purge of expired rows. The main result is that every reachable database is the result of
 * running the committed operations one at a time, in commit order.
 */
module AuthInterleaving {
  import opened Prelude
  import opened AuthTables
  import opened AuthSpec
  import opened AuthLocking
  import opened AuthPlans
  import opened AuthDiscipline
  import opened AuthLawful
  import opened AuthCommit

  datatype Tx = Tx(op: Op, env: Env, oracle: Oracle, todo: Plan, cert: Cert)
  datatype Entry = Entry(op: Op, env: Env)
  datatype State = State(db: Db, clock: Time, txs: map<nat, Tx>, log: seq<Entry>)

  datatype Step =
    | Begin(id: nat, op: Op, env: Env, oracle: Oracle)
    | Advance(id: nat)
    | Commit(id: nat)
    | Abort(id: nat)
    | Tick(to: Time)
    | PurgeNow(sessions: set<Hash>, challenges: set<Hash>, env: Env)

  function Start(db: Db, clock: Time): State { State(db, clock, map[], []) }

  predicate Owns(s: State, id: nat, l: Lock) {
    id in s.txs && l in s.txs[id].cert.held
  }

  /** The next statement of `id` needs a lock that `other` holds, on a row that is there. */
  predicate WaitsFor(k: Keys, s: State, id: nat, other: nat) {
    && id in s.txs && other in s.txs && id != other && s.txs[id].todo.Do?
    && var a := s.txs[id].todo.action;
    && LockOf(k, a).Some? && LockOf(k, a).value in s.txs[other].cert.held
    && (a.Select? ==> Holds(a.fact, s.db))
  }

  ghost predicate Blocked(k: Keys, s: State, id: nat) {
    exists other :: WaitsFor(k, s, id, other)
  }

  /** A statement whose read does not come out as the oracle said ends in a rollback. */
  predicate Fails(a: Action, s: State) {
    match a
    case Select(f) => !Holds(f, s.db)
    case Check(f) => !Holds(f, s.db)
    case Peek(f) => !Holds(f, s.db)
    case ReadClock(at) => at != s.clock
    case Require(ok) => !ok
    case _ => false
  }

  predicate RowFree(s: State, t: Table, keys: set<string>) {
    forall id, x :: id in s.txs && x in keys ==> RowLock(t, x) !in s.txs[id].cert.held
  }

  ghost predicate Enabled(k: Keys, s: State, step: Step) {
    match step
    case Begin(id, op, env, _) => id !in s.txs && env.start == s.clock
    case Advance(id) => id in s.txs && s.txs[id].todo.Do? && !Blocked(k, s, id)
    case Commit(id) => id in s.txs && s.txs[id].todo.Done?
    case Abort(id) => id in s.txs
    case Tick(to) => s.clock <= to
    case PurgeNow(ss, cs, env) =>
      && env.sqlClock == s.clock && RowFree(s, Sessions, ss) && RowFree(s, Challenges, cs)
      && Exec(s.db, Purge(ss, cs), env).Ok?
  }

  function Without(s: State, id: nat): State { s.(txs := s.txs - {id}) }

  function Next(k: Keys, s: State, step: Step): State {
    match step
    case Begin(id, op, env, o) => s.(txs := s.txs[id := Tx(op, env, o, PlanOf(op, env, o), FRESH_CERT)])
    case Advance(id) =>
      if id !in s.txs || s.txs[id].todo.Done? then s
      else
        var tx := s.txs[id];
        if Fails(tx.todo.action, s) then Without(s, id)
        else s.(txs := s.txs[id := tx.(todo := tx.todo.rest, cert := After(k, tx.todo.action, tx.cert))])
    case Commit(id) =>
      if id !in s.txs then s
      else
        var tx := s.txs[id];
        match ApplyAll(tx.cert.writes, s.db) {
          case None => Without(s, id)
          case Some(db) => Without(s, id).(db := db, log := s.log + [Entry(tx.op, tx.env)])
        }
    case Abort(id) => Without(s, id)
    case Tick(to) => s.(clock := to)
    case PurgeNow(ss, cs, env) =>
      var op := Purge(ss, cs);
      match Exec(s.db, op, env) {
        case Ok(c) => s.(db := c.db, log := s.log + [Entry(op, env)])
        case Err(_) => s
      }
  }

  /** `steps` is a run of the system from `s`, ending in `t`. */
  ghost predicate RunsTo(k: Keys, s: State, steps: seq<Step>, t: State)
    decreases |steps|
  {
    if steps == [] then s == t
    else Enabled(k, s, steps[0]) && RunsTo(k, Next(k, s, steps[0]), steps[1..], t)
  }

  /** The committed operations, one at a time. */
  function Replay(db: Db, log: seq<Entry>): Option<Db> {
    if log == [] then Some(db)
    else
      match Replay(db, log[..|log| - 1])
      case None => None
      case Some(mid) =>
        match Exec(mid, log[|log| - 1].op, log[|log| - 1].env) {
          case Ok(c) => Some(c.db)
          case Err(_) => None
        }
  }

  // ---- The invariant. ----

  /** A locked row was read under that lock, beneath its parent or by a transaction holding nothing else. */
  ghost predicate RowBacked(k: Keys, c: Cert, l: Lock) {
    exists f :: f in c.facts && RowOf(f) == Some(l)
      && ((Parent(k, f).Some? && Parent(k, f).value in c.held) || c.held == {l})
  }

  ghost predicate CertOk(k: Keys, c: Cert, db: Db) {
    && FactsHold(c, db) && FactsGuarded(k, c) && WritesCovered(k, c.writes, c)
    && (forall l :: l in c.held && l.RowLock? ==> RowBacked(k, c, l))
  }

  ghost predicate TxOk(k: Keys, tx: Tx, db: Db) {
    && Disciplined(k, tx.todo, tx.cert)
    && Final(k, tx.todo, tx.cert) == Final(k, PlanOf(tx.op, tx.env, tx.oracle), FRESH_CERT)
    && (Passes(tx.todo) ==> Passes(PlanOf(tx.op, tx.env, tx.oracle)))
    && CertOk(k, tx.cert, db)
  }

  ghost predicate Exclusive(s: State) {
    forall i, j, l :: Owns(s, i, l) && Owns(s, j, l) ==> i == j
  }

  ghost predicate Inv(k: Keys, db0: Db, s: State) {
    && (forall id :: id in s.txs ==> TxOk(k, s.txs[id], s.db))
    && Exclusive(s)
    && Replay(db0, s.log) == Some(s.db)
  }

  // ---- One statement. ----

  lemma AfterOk(k: Keys, a: Action, c: Cert, db: Db)
    requires CertOk(k, c, db) && Allowed(k, a, c)
    requires (a.Select? || a.Check?) ==> Holds(a.fact, db)
    ensures CertOk(k, After(k, a, c), db)
  {
    var d := After(k, a, c);
    assert forall x :: InsertsAccount(c.writes, x) ==> InsertsAccount(d.writes, x);
    CoveredGrows(k, c.writes, c, d);
    if a.Put? { PutCovered(k, a.write, c); }
    forall l | l in d.held && l.RowLock? ensures RowBacked(k, d, l) {
      AfterBacked(k, a, c, l);
    }
    if a.Select? { SelectGuarded(k, a, c); }
  }

  lemma PutCovered(k: Keys, w: Write, c: Cert)
    requires Covered(k, w, c)
    ensures Covered(k, w, After(k, Put(w), c))
  {}

  lemma SelectGuarded(k: Keys, a: Action, c: Cert)
    requires a.Select? && Allowed(k, a, c)
    ensures Guard(k, a.fact).Some? && Guard(k, a.fact).value in After(k, a, c).held
  {}

  lemma AfterBacked(k: Keys, a: Action, c: Cert, l: Lock)
    requires forall m :: m in c.held && m.RowLock? ==> RowBacked(k, c, m)
    requires Allowed(k, a, c) && l in After(k, a, c).held && l.RowLock?
    ensures RowBacked(k, After(k, a, c), l)
  {
    var d := After(k, a, c);
    if a.Select? && RowOf(a.fact) == Some(l) {
      assert a.fact in d.facts;
      if c.held == {} { assert d.held == {l}; }
    } else {
      assert l in c.held;
      var f :| f in c.facts && RowOf(f) == Some(l)
        && ((Parent(k, f).Some? && Parent(k, f).value in c.held) || c.held == {l});
      assert f in d.facts;
      if c.held == {l} { OnlyRowStays(k, a, c, l); }
    }
  }

  /** A transaction that holds a single row lock and nothing else takes no further lock. */
  lemma OnlyRowStays(k: Keys, a: Action, c: Cert, l: Lock)
    requires c.held == {l} && l.RowLock? && Allowed(k, a, c)
    ensures After(k, a, c).held == c.held
  {
    assert !IsHashLock(k, l);
    assert forall f :: Parent(k, f) != Some(l);
  }

  lemma AdvanceInv(k: Keys, db0: Db, s: State, id: nat)
    requires Inv(k, db0, s) && Enabled(k, s, Advance(id))
    ensures Inv(k, db0, Next(k, s, Advance(id)))
  {
    var t := Next(k, s, Advance(id));
    var tx := s.txs[id];
    var a := tx.todo.action;
    if !Fails(a, s) {
      assert TxOk(k, tx, s.db);
      AfterOk(k, a, tx.cert, s.db);
      assert TxOk(k, t.txs[id], t.db);
      forall i, j, l | Owns(t, i, l) && Owns(t, j, l) ensures i == j {
        if i != j {
          if i == id { AdvanceExclusive(k, s, id, j, l); }
          else if j == id { AdvanceExclusive(k, s, id, i, l); }
          else { assert Owns(s, i, l) && Owns(s, j, l); }
        }
      }
    } else {
      WithoutInv(k, db0, s, id);
    }
  }

  lemma AdvanceExclusive(k: Keys, s: State, id: nat, other: nat, l: Lock)
    requires Exclusive(s) && Enabled(k, s, Advance(id)) && !Fails(s.txs[id].todo.action, s)
    requires other != id && Owns(s, other, l)
    ensures l !in After(k, s.txs[id].todo.action, s.txs[id].cert).held
  {
    assert l in s.txs[id].cert.held ==> Owns(s, id, l);
    assert LockOf(k, s.txs[id].todo.action) == Some(l) ==> WaitsFor(k, s, id, other);
  }

  lemma WithoutInv(k: Keys, db0: Db, s: State, id: nat)
    requires Inv(k, db0, s)
    ensures Inv(k, db0, Without(s, id))
  {
    var t := Without(s, id);
    forall i, j, l | Owns(t, i, l) && Owns(t, j, l) ensures i == j {
      assert Owns(s, i, l) && Owns(s, j, l);
    }
  }

  lemma BeginInv(k: Keys, db0: Db, s: State, id: nat, op: Op, env: Env, o: Oracle)
    requires Inv(k, db0, s) && Enabled(k, s, Begin(id, op, env, o))
    ensures Inv(k, db0, Next(k, s, Begin(id, op, env, o)))
  {
    var t := Next(k, s, Begin(id, op, env, o));
    EveryPlanIsLawful(k, op, env, o);
    assert TxOk(k, t.txs[id], t.db);
    forall i, j, l | Owns(t, i, l) && Owns(t, j, l) ensures i == j {
      assert i != id && j != id;
      assert Owns(s, i, l) && Owns(s, j, l);
    }
  }

  // ---- Commit. ----

  lemma {:induction false} AccountsGrow(ws: Writes, db: Db)
    requires ApplyAll(ws, db).Some?
    ensures db.accounts.Keys <= ApplyAll(ws, db).value.accounts.Keys
    ensures forall a :: InsertsAccount(ws, a) ==> a !in db.accounts
  {
    if ws.Then? {
      AccountsGrow(ws.before, db);
      AccountAdded(ws.last, ApplyAll(ws.before, db).value);
    }
  }

  lemma AccountAdded(w: Write, db: Db)
    requires Apply(w, db).Some?
    ensures db.accounts.Keys <= Apply(w, db).value.accounts.Keys
    ensures w.InsertAccount? ==> w.account !in db.accounts
  {}

  lemma {:induction false} StableUnderAll(k: Keys, ws: Writes, f: Fact, c: Cert, db: Db)
    requires Guard(k, f).Some? && Guard(k, f).value !in c.held
    requires Holds(f, db) && FactsHold(c, db) && WritesCovered(k, ws, c)
    requires forall a :: InsertsAccount(c.writes, a) ==> a !in db.accounts
    requires ApplyAll(ws, db).Some?
    ensures Holds(f, ApplyAll(ws, db).value)
  {
    if ws.Then? {
      StableUnderAll(k, ws.before, f, c, db);
      StableUnderWrite(k, ws.last, f, c, db, ApplyAll(ws.before, db).value);
    }
  }

  /** Facts established by one transaction survive the commit of another. */
  lemma FactsSurviveCommit(k: Keys, s: State, id: nat, other: nat)
    requires id in s.txs && other in s.txs && id != other
    requires TxOk(k, s.txs[id], s.db) && TxOk(k, s.txs[other], s.db) && Exclusive(s)
    requires ApplyAll(s.txs[id].cert.writes, s.db).Some?
    ensures FactsHold(s.txs[other].cert, ApplyAll(s.txs[id].cert.writes, s.db).value)
  {
    var c := s.txs[id].cert;
    var d := s.txs[other].cert;
    AccountsGrow(c.writes, s.db);
    forall f | f in d.facts ensures Holds(f, ApplyAll(c.writes, s.db).value) {
      var g := Guard(k, f).value;
      assert Owns(s, other, g);
      assert g in c.held ==> Owns(s, id, g);
      StableUnderAll(k, c.writes, f, c, s.db);
    }
  }

  lemma ReplayAppend(db0: Db, log: seq<Entry>, e: Entry)
    ensures Replay(db0, log + [e]) ==
      match Replay(db0, log) {
        case None => None
        case Some(mid) => match Exec(mid, e.op, e.env) { case Ok(c) => Some(c.db) case Err(_) => None }
      }
  {
    assert (log + [e])[..|log|] == log;
  }

  lemma CommitInv(k: Keys, db0: Db, s: State, id: nat)
    requires Inv(k, db0, s) && Enabled(k, s, Commit(id))
    ensures Inv(k, db0, Next(k, s, Commit(id)))
  {
    var tx := s.txs[id];
    var t := Next(k, s, Commit(id));
    WithoutInv(k, db0, s, id);
    if ApplyAll(tx.cert.writes, s.db).Some? {
      forall other | other in t.txs ensures TxOk(k, t.txs[other], t.db) {
        FactsSurviveCommit(k, s, id, other);
      }
      assert TxOk(k, tx, s.db);
      EveryPlanIsLawful(k, tx.op, tx.env, tx.oracle);
      assert tx.cert == EndCert(k, tx.op, tx.env, tx.oracle);
      EveryCommitIsAtomic(k, tx.op, tx.env, tx.oracle, s.db);
      ReplayAppend(db0, s.log, Entry(tx.op, tx.env));
      forall i, j, l | Owns(t, i, l) && Owns(t, j, l) ensures i == j {
        assert Owns(Without(s, id), i, l) && Owns(Without(s, id), j, l);
      }
    }
  }

  lemma PurgeInv(k: Keys, db0: Db, s: State, ss: set<Hash>, cs: set<Hash>, env: Env)
    requires Inv(k, db0, s) && Enabled(k, s, PurgeNow(ss, cs, env))
    ensures Inv(k, db0, Next(k, s, PurgeNow(ss, cs, env)))
  {
    var t := Next(k, s, PurgeNow(ss, cs, env));
    forall id | id in t.txs ensures TxOk(k, t.txs[id], t.db) {
      assert TxOk(k, s.txs[id], s.db);
      PurgeKeepsFacts(k, s.txs[id].cert, s.db, t.db, ss, cs);
    }
    ReplayAppend(db0, s.log, Entry(Purge(ss, cs), env));
    forall i, j, l | Owns(t, i, l) && Owns(t, j, l) ensures i == j {
      assert Owns(s, i, l) && Owns(s, j, l);
    }
  }

  lemma PurgeKeepsFacts(k: Keys, c: Cert, db: Db, after: Db, ss: set<Hash>, cs: set<Hash>)
    requires FactsHold(c, db) && FactsGuarded(k, c)
    requires forall x :: x in ss ==> RowLock(Sessions, x) !in c.held
    requires forall x :: x in cs ==> RowLock(Challenges, x) !in c.held
    requires after == db.(sessions := db.sessions - ss, challenges := db.challenges - cs)
    ensures FactsHold(c, after)
  {
    forall f | f in c.facts ensures Holds(f, after) { PurgeStable(k, f, c, db, after, ss, cs); }
  }

  lemma PurgeStable(k: Keys, f: Fact, c: Cert, db: Db, after: Db, ss: set<Hash>, cs: set<Hash>)
    requires Holds(f, db) && Guard(k, f).Some? && Guard(k, f).value in c.held
    requires forall x :: x in ss ==> RowLock(Sessions, x) !in c.held
    requires forall x :: x in cs ==> RowLock(Challenges, x) !in c.held
    requires after == db.(sessions := db.sessions - ss, challenges := db.challenges - cs)
    ensures Holds(f, after)
  {
    if f.OnlyRows? {
      assert SessionsOf(after, f.account) <= SessionsOf(db, f.account);
      assert ChallengesOf(after, f.account) <= ChallengesOf(db, f.account);
    }
  }

  lemma NextInv(k: Keys, db0: Db, s: State, step: Step)
    requires Inv(k, db0, s) && Enabled(k, s, step)
    ensures Inv(k, db0, Next(k, s, step))
  {
    match step
    case Begin(id, op, env, o) => BeginInv(k, db0, s, id, op, env, o);
    case Advance(id) => AdvanceInv(k, db0, s, id);
    case Commit(id) => CommitInv(k, db0, s, id);
    case Abort(id) => WithoutInv(k, db0, s, id);
    case Tick(to) =>
      var t := Next(k, s, step);
      forall i, j, l | Owns(t, i, l) && Owns(t, j, l) ensures i == j {
        assert Owns(s, i, l) && Owns(s, j, l);
      }
    case PurgeNow(ss, cs, env) => PurgeInv(k, db0, s, ss, cs, env);
  }

  lemma {:induction false} RunInv(k: Keys, db0: Db, s: State, steps: seq<Step>, t: State)
    requires Inv(k, db0, s) && RunsTo(k, s, steps, t)
    ensures Inv(k, db0, t)
    decreases |steps|
  {
    if steps != [] {
      NextInv(k, db0, s, steps[0]);
      RunInv(k, db0, Next(k, s, steps[0]), steps[1..], t);
    }
  }

  /**
   * Serializability: whatever the interleaving, the committed tables are those of the committed
   * operations run alone, one after another, in the order they committed.
   */
  lemma InterleavingIsSerial(k: Keys, db0: Db, clock: Time, steps: seq<Step>, s: State)
    requires RunsTo(k, Start(db0, clock), steps, s)
    ensures Replay(db0, s.log) == Some(s.db)
  {
    RunInv(k, db0, Start(db0, clock), steps, s);
  }
}
