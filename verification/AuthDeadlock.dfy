/**
 * Deadlocks of the account transactions. The advisory locks of hashes and of wallets share one key
 * space, so the result is exact, run by run: a set of transactions that waits on itself has two
 * different advisory keys, each of a hash and of an address of its own members; and hashes and
 * addresses with two such keys do reach a deadlock.
 */
module AuthDeadlock {
  import opened Prelude
  import opened AuthTables
  import opened AuthSpec
  import opened AuthLocking
  import opened AuthPlans
  import opened AuthInterleaving
  import opened AuthOwnLocks
  import WaitGraphs
  import Lex

  function Wants(k: Keys, s: State, tx: Tx): Option<Lock> {
    if tx.todo.Do? && (tx.todo.action.Select? ==> Holds(tx.todo.action.fact, s.db)) then LockOf(k, tx.todo.action) else None
  }

  /** The waits among the transactions of `d`. */
  function GraphOf(k: Keys, s: State, d: set<nat>): WaitGraphs.Graph {
    map id | id in s.txs && id in d :: WaitGraphs.Node(Wants(k, s, s.txs[id]), s.txs[id].cert.held)
  }

  lemma EdgesAreWaits(k: Keys, s: State, d: set<nat>, id: nat, other: nat)
    ensures WaitGraphs.Edge(GraphOf(k, s, d), id, other) <==> id in d && other in d && WaitsFor(k, s, id, other)
  {}

  /** The advisory keys of the members' own hashes, and those of their own addresses. */
  function HashKeys(k: Keys, s: State, d: set<nat>): set<int> {
    set id | id in d && id in s.txs && OwnHash(s.txs[id].op).Some? :: k.hash(OwnHash(s.txs[id].op).value)
  }

  function WalletKeys(k: Keys, s: State, d: set<nat>): set<int> {
    set id | id in d && id in s.txs && OwnAddress(s.txs[id].op).Some? :: k.wallet(OwnAddress(s.txs[id].op).value)
  }

  function SharedKeys(k: Keys, s: State, d: set<nat>): set<int> { HashKeys(k, s, d) * WalletKeys(k, s, d) }

  ghost predicate AtMostOne(keys: set<int>) { forall x, y :: x in keys && y in keys ==> x == y }

  lemma SameRowSameFact(f: Fact, g: Fact, db: Db)
    requires RowOf(f).Some? && RowOf(f) == RowOf(g) && Holds(f, db) && Holds(g, db)
    ensures f == g
  {}

  lemma LockedAfter(k: Keys, a: Action, c: Cert)
    ensures LockOf(k, a).Some? ==> LockOf(k, a).value in After(k, a, c).held
  {}

  /** A waiter for a row lock holds nothing, provided the owner of that row is itself waiting. */
  lemma RowWaiterHoldsNothing(k: Keys, db0: Db, s: State, id: nat, other: nat, third: nat)
    requires Inv(k, db0, s) && WaitsFor(k, s, id, other) && WaitsFor(k, s, other, third)
    requires LockOf(k, s.txs[id].todo.action).value.RowLock?
    ensures s.txs[id].cert.held == {}
  {
    var c, d := s.txs[id].cert, s.txs[other].cert;
    var a := s.txs[id].todo.action;
    var l := LockOf(k, a).value;
    assert TxOk(k, s.txs[id], s.db) && TxOk(k, s.txs[other], s.db);
    assert RowBacked(k, d, l);
    var g :| g in d.facts && RowOf(g) == Some(l)
      && ((Parent(k, g).Some? && Parent(k, g).value in d.held) || d.held == {l});
    SameRowSameFact(a.fact, g, s.db);
    if d.held == {l} {
      OnlyRowStays(k, s.txs[other].todo.action, d, l);
      LockedAfter(k, s.txs[other].todo.action, d);
      assert Owns(s, other, l) && Owns(s, third, l);
    } else if c.held != {} {
      assert Owns(s, id, Parent(k, g).value) && Owns(s, other, Parent(k, g).value);
    }
  }

  /** A waiter for an advisory lock holds nothing, or wants its own wallet key and holds only its own hash lock. */
  lemma AdvisoryWaiter(k: Keys, db0: Db, s: State, id: nat, other: nat)
    requires Inv(k, db0, s) && OwnLocks(k, s) && WaitsFor(k, s, id, other) && s.txs[id].cert.held != {}
    requires LockOf(k, s.txs[id].todo.action).value.Advisory?
    ensures OwnAddress(s.txs[id].op).Some? &&
      LockOf(k, s.txs[id].todo.action).value.key == k.wallet(OwnAddress(s.txs[id].op).value)
    ensures forall l :: l in s.txs[id].cert.held ==>
      OwnHash(s.txs[id].op).Some? && l == Advisory(k.hash(OwnHash(s.txs[id].op).value))
  {
    assert TxOk(k, s.txs[id], s.db) && OwnTx(k, s.txs[id]);
    assert Allowed(k, s.txs[id].todo.action, s.txs[id].cert);
    assert Advises(s.txs[id].todo);
  }

  /** A waiter for an account holds no row, and no account that is not smaller. */
  lemma AccountWaiter(k: Keys, db0: Db, s: State, id: nat, other: nat)
    requires Inv(k, db0, s) && WaitsFor(k, s, id, other)
    requires LockOf(k, s.txs[id].todo.action).value.AccountLock?
    ensures forall a :: AccountLock(a) in s.txs[id].cert.held ==>
      Lex.Less(a, LockOf(k, s.txs[id].todo.action).value.account)
  {
    assert TxOk(k, s.txs[id], s.db);
    var a := s.txs[id].todo.action;
    assert Allowed(k, a, s.txs[id].cert);
    var want := LockOf(k, a).value;
    assert Owns(s, other, want);
    assert want in s.txs[id].cert.held ==> Owns(s, id, want);
  }

  /** A wanted wallet key that is the key of a held hash lock is shared. */
  lemma SharedWait(k: Keys, db0: Db, s: State, d: set<nat>, id: nat, o: nat, p: nat)
    requires Inv(k, db0, s) && OwnLocks(k, s) && WaitsFor(k, s, id, o) && WaitsFor(k, s, o, p) && id in d && o in d
    requires LockOf(k, s.txs[id].todo.action).value.Advisory? && LockOf(k, s.txs[o].todo.action).value.Advisory?
    requires s.txs[id].cert.held != {}
    ensures LockOf(k, s.txs[id].todo.action).value.key in SharedKeys(k, s, d)
  {
    AdvisoryWaiter(k, db0, s, id, o);
    AdvisoryWaiter(k, db0, s, o, p);
  }

  lemma WaitsObeyRules(k: Keys, db0: Db, s: State, d: set<nat>, id: nat, o: nat, p: nat)
    requires Inv(k, db0, s) && OwnLocks(k, s) && WaitsFor(k, s, id, o) && WaitsFor(k, s, o, p) && id in d && o in d
    ensures WaitGraphs.Rule(SharedKeys(k, s, d), LockOf(k, s.txs[id].todo.action).value, s.txs[id].cert.held,
                            LockOf(k, s.txs[o].todo.action).value)
  {
    var want, next := LockOf(k, s.txs[id].todo.action).value, LockOf(k, s.txs[o].todo.action).value;
    match want
    case RowLock(_, _) => RowWaiterHoldsNothing(k, db0, s, id, o, p);
    case AccountLock(_) =>
      assert Owns(s, o, want);
      if next.AccountLock? { AccountWaiter(k, db0, s, o, p); }
      if next.Advisory? { AdvisoryWaiter(k, db0, s, o, p); }
    case Advisory(_) =>
      if s.txs[id].cert.held != {} && next.Advisory? { SharedWait(k, db0, s, d, id, o, p); }
  }

  lemma GraphIsOrderly(k: Keys, db0: Db, s: State, d: set<nat>)
    requires Inv(k, db0, s) && OwnLocks(k, s)
    ensures WaitGraphs.Orderly(SharedKeys(k, s, d), GraphOf(k, s, d)) && WaitGraphs.Exclusive(GraphOf(k, s, d))
  {
    var g := GraphOf(k, s, d);
    forall id, o, p | WaitGraphs.Edge(g, id, o) && WaitGraphs.Edge(g, o, p)
      ensures WaitGraphs.Rule(SharedKeys(k, s, d), g[id].wants.value, g[id].holds, g[o].wants.value)
    {
      EdgesAreWaits(k, s, d, id, o);
      EdgesAreWaits(k, s, d, o, p);
      WaitsObeyRules(k, db0, s, d, id, o, p);
    }
    forall i, j, l | i in g && j in g && l in g[i].holds && l in g[j].holds ensures i == j {
      assert Owns(s, i, l) && Owns(s, j, l);
    }
  }

  /** Every member of `d` waits for a lock that another member holds. */
  ghost predicate Deadlocked(k: Keys, s: State, d: set<nat>) {
    d != {} && forall id {:trigger WaitsWithin(k, s, d, id)} :: id in d ==> WaitsWithin(k, s, d, id)
  }

  ghost predicate WaitsWithin(k: Keys, s: State, d: set<nat>, id: nat) {
    exists other :: other in d && WaitsFor(k, s, id, other)
  }

  lemma DeadlockIsKnot(k: Keys, s: State, d: set<nat>)
    requires Deadlocked(k, s, d)
    ensures WaitGraphs.Knot(GraphOf(k, s, d), d)
  {
    forall id | id in d ensures WaitGraphs.WaitsIn(GraphOf(k, s, d), d, id) {
      assert WaitsWithin(k, s, d, id);
      var other :| other in d && WaitsFor(k, s, id, other);
      EdgesAreWaits(k, s, d, id, other);
    }
  }

  /** A reachable deadlock has two different advisory keys, each of a member's own hash and of a member's own address. */
  lemma DeadlockNeedsTwoSharedKeys(k: Keys, db0: Db, clock: Time, steps: seq<Step>, s: State, d: set<nat>)
    returns (x: int, y: int)
    requires RunsTo(k, Start(db0, clock), steps, s) && Deadlocked(k, s, d)
    ensures x != y && x in SharedKeys(k, s, d) && y in SharedKeys(k, s, d)
  {
    RunInv(k, db0, Start(db0, clock), steps, s);
    RunOwn(k, Start(db0, clock), steps, s);
    GraphIsOrderly(k, db0, s, d);
    DeadlockIsKnot(k, s, d);
    x, y := WaitGraphs.KnotNeedsTwoKeys(SharedKeys(k, s, d), GraphOf(k, s, d), d);
  }

  /** No deadlock among transactions whose own hashes and addresses share at most one advisory key. */
  lemma NoReachableDeadlock(k: Keys, db0: Db, clock: Time, steps: seq<Step>, s: State, d: set<nat>)
    requires RunsTo(k, Start(db0, clock), steps, s) && AtMostOne(SharedKeys(k, s, d))
    ensures !Deadlocked(k, s, d)
  {
    if Deadlocked(k, s, d) {
      var x, y := DeadlockNeedsTwoSharedKeys(k, db0, clock, steps, s, d);
    }
  }

  /** While transactions are unfinished and their keys share at most one, one of them can take its next statement or commit. */
  lemma SomeTransactionCanStep(k: Keys, db0: Db, clock: Time, steps: seq<Step>, s: State)
    requires RunsTo(k, Start(db0, clock), steps, s) && s.txs.Keys != {} && AtMostOne(SharedKeys(k, s, s.txs.Keys))
    ensures exists id :: id in s.txs && (Enabled(k, s, Advance(id)) || Enabled(k, s, Commit(id)))
  {
    NoReachableDeadlock(k, db0, clock, steps, s, s.txs.Keys);
    var id :| id in s.txs.Keys && !WaitsWithin(k, s, s.txs.Keys, id);
    assert !Blocked(k, s, id);
    assert Enabled(k, s, Advance(id)) || Enabled(k, s, Commit(id));
  }

  // ---- The condition is exact: two shared keys let two wallet logins block each other. ----

  const NOON: Env := Env(0, 0, 0, 0, None, false, "", "")

  const QUIET: Oracle := Oracle(
    SessionRow("", ByWallet, 0, 0), AccountRow("", Active), None, None,
    ChallengeRow("", WalletLogin, "", None, None, None, 0, 0), PasskeyRow("", Credential([], 0, SingleDevice, false, [])),
    "", map[], map[], [], [], [])

  function Login(h: Hash, w: Address): Op { LoginWallet(w, h, None) }

  function Begun(h: Hash, w: Address): Tx {
    Tx(Login(h, w), NOON, QUIET, PlanOf(Login(h, w), NOON, QUIET), FRESH_CERT)
  }

  /** A wallet login stopped in front of the wallet's advisory lock. */
  function AtWallet(k: Keys, h: Hash, w: Address): Tx {
    Begun(h, w).(todo := Begun(h, w).todo.rest.rest.rest, cert := HashHeld(k, h))
  }

  function HashHeld(k: Keys, h: Hash): Cert {
    Cert({Advisory(k.hash(h))}, {HashFree(h)}, NoWrites)
  }

  lemma AtWalletWants(k: Keys, h: Hash, w: Address)
    ensures AtWallet(k, h, w).todo.Do? && AtWallet(k, h, w).todo.action == AdviseWallet(w)
  {}

  lemma {:induction false} Join(k: Keys, s: State, first: seq<Step>, mid: State, second: seq<Step>, t: State)
    requires RunsTo(k, s, first, mid) && RunsTo(k, mid, second, t)
    ensures RunsTo(k, s, first + second, t)
    decreases |first|
  {
    if first == [] {
      assert first + second == second;
    } else {
      Join(k, Next(k, s, first[0]), first[1..], mid, second, t);
      assert (first + second)[1..] == first[1..] + second;
    }
  }

  lemma FourSteps(k: Keys, s: State, a: Step, s1: State, b: Step, s2: State, c: Step, s3: State, d: Step, t: State)
    requires Enabled(k, s, a) && Next(k, s, a) == s1
    requires Enabled(k, s1, b) && Next(k, s1, b) == s2
    requires Enabled(k, s2, c) && Next(k, s2, c) == s3
    requires Enabled(k, s3, d) && Next(k, s3, d) == t
    ensures RunsTo(k, s, [a, b, c, d], t)
  {
    assert RunsTo(k, t, [], t);
    assert RunsTo(k, s3, [d], t);
    assert [c, d][1..] == [d] && [b, c, d][1..] == [c, d] && [a, b, c, d][1..] == [b, c, d];
    assert RunsTo(k, s2, [c, d], t);
    assert RunsTo(k, s1, [b, c, d], t);
  }

  /** One statement that succeeds and needs no lock held by another. */
  lemma AdvanceStep(k: Keys, base: State, id: nat, tx: Tx)
    requires tx.todo.Do? && !Fails(tx.todo.action, base) && !tx.todo.action.Select?
    requires LockOf(k, tx.todo.action).Some? ==> forall other :: other in base.txs && other != id ==>
      LockOf(k, tx.todo.action).value !in base.txs[other].cert.held
    ensures var s := base.(txs := base.txs[id := tx]);
      && Enabled(k, s, Advance(id))
      && Next(k, s, Advance(id)) ==
           base.(txs := base.txs[id := tx.(todo := tx.todo.rest, cert := After(k, tx.todo.action, tx.cert))])
  {
    var s := base.(txs := base.txs[id := tx]);
    var after := tx.(todo := tx.todo.rest, cert := After(k, tx.todo.action, tx.cert));
    assert base.txs[id := tx][id := after] == base.txs[id := after];
    assert Fails(tx.todo.action, s) == Fails(tx.todo.action, base);
  }

  function LoginSteps(id: nat, h: Hash, w: Address): seq<Step> {
    [Begin(id, Login(h, w), NOON, QUIET), Advance(id), Advance(id), Advance(id)]
  }

  /** A login whose hash key nobody holds runs up to its wallet lock. */
  lemma ReachWallet(k: Keys, s: State, id: nat, h: Hash, w: Address)
    requires s.clock == 0 && id !in s.txs && HashUnused(s.db, h)
    requires forall other :: other in s.txs ==> Advisory(k.hash(h)) !in s.txs[other].cert.held
    ensures RunsTo(k, s, LoginSteps(id, h, w), s.(txs := s.txs[id := AtWallet(k, h, w)]))
  {
    var tx0 := Begun(h, w);
    var tx1 := tx0.(todo := tx0.todo.rest);
    var tx2 := tx0.(todo := tx0.todo.rest.rest, cert := FRESH_CERT.(held := {Advisory(k.hash(h))}));
    AdvanceStep(k, s, id, tx0);
    AdvanceStep(k, s, id, tx1);
    assert After(k, AdviseHash(h), FRESH_CERT) == tx2.cert;
    AdvanceStep(k, s, id, tx2);
    assert After(k, Check(HashFree(h)), tx2.cert) == HashHeld(k, h);
    FourSteps(k, s, Begin(id, Login(h, w), NOON, QUIET), s.(txs := s.txs[id := tx0]), Advance(id), s.(txs := s.txs[id := tx1]),
              Advance(id), s.(txs := s.txs[id := tx2]), Advance(id), s.(txs := s.txs[id := AtWallet(k, h, w)]));
  }

  /** The second login joins the first, each in front of the wallet lock of the other's key. */
  lemma CrossedLogins(k: Keys, h1: Hash, w1: Address, h2: Hash, w2: Address) returns (s: State)
    requires k.hash(h1) != k.hash(h2)
    ensures RunsTo(k, Start(EMPTY, 0), LoginSteps(1, h1, w2) + LoginSteps(2, h2, w1), s)
    ensures s.txs == map[1 := AtWallet(k, h1, w2), 2 := AtWallet(k, h2, w1)]
  {
    var start := Start(EMPTY, 0);
    var half := start.(txs := map[1 := AtWallet(k, h1, w2)]);
    s := start.(txs := map[1 := AtWallet(k, h1, w2), 2 := AtWallet(k, h2, w1)]);
    ReachWallet(k, start, 1, h1, w2);
    assert start.txs[1 := AtWallet(k, h1, w2)] == half.txs;
    ReachWallet(k, half, 2, h2, w1);
    assert half.txs[2 := AtWallet(k, h2, w1)] == s.txs;
    Join(k, start, LoginSteps(1, h1, w2), half, LoginSteps(2, h2, w1), s);
  }

  /** Two hashes and two addresses colliding crosswise: their logins reach a deadlock from empty tables. */
  lemma TwoSharedKeysDeadlock(k: Keys, h1: Hash, w1: Address, h2: Hash, w2: Address) returns (s: State)
    requires k.hash(h1) == k.wallet(w1) && k.hash(h2) == k.wallet(w2) && k.hash(h1) != k.hash(h2)
    ensures RunsTo(k, Start(EMPTY, 0), LoginSteps(1, h1, w2) + LoginSteps(2, h2, w1), s) && Deadlocked(k, s, {1, 2})
  {
    s := CrossedLogins(k, h1, w1, h2, w2);
    AtWalletWants(k, h1, w2);
    AtWalletWants(k, h2, w1);
    assert WaitsFor(k, s, 1, 2) && WaitsFor(k, s, 2, 1);
    assert WaitsWithin(k, s, {1, 2}, 1) && WaitsWithin(k, s, {1, 2}, 2);
  }

  // ---- Exactly which hashes and addresses can deadlock. ----

  /** An operation whose own hash and address are among the given ones. */
  predicate Within(op: Op, hashes: set<Hash>, addresses: set<Address>) {
    && (OwnHash(op).Some? ==> OwnHash(op).value in hashes)
    && (OwnAddress(op).Some? ==> OwnAddress(op).value in addresses)
  }

  /** Every transaction begun in the run is such an operation. */
  predicate RunWithin(steps: seq<Step>, hashes: set<Hash>, addresses: set<Address>) {
    forall i :: 0 <= i < |steps| && steps[i].Begin? ==> Within(steps[i].op, hashes, addresses)
  }

  ghost predicate StateWithin(s: State, hashes: set<Hash>, addresses: set<Address>) {
    forall id :: id in s.txs ==> Within(s.txs[id].op, hashes, addresses)
  }

  lemma {:induction false} StaysWithin(
      k: Keys, s: State, steps: seq<Step>, t: State, hashes: set<Hash>, addresses: set<Address>)
    requires StateWithin(s, hashes, addresses) && RunWithin(steps, hashes, addresses) && RunsTo(k, s, steps, t)
    ensures StateWithin(t, hashes, addresses)
    decreases |steps|
  {
    if steps != [] {
      assert steps[0].Begin? ==> Within(steps[0].op, hashes, addresses);
      assert StateWithin(Next(k, s, steps[0]), hashes, addresses);
      assert forall i :: 0 <= i < |steps| - 1 ==> steps[1..][i] == steps[i + 1];
      StaysWithin(k, Next(k, s, steps[0]), steps[1..], t, hashes, addresses);
    }
  }

  /** The keys that both a given hash and a given address map to. */
  function CommonKeys(k: Keys, hashes: set<Hash>, addresses: set<Address>): set<int> {
    (set h | h in hashes :: k.hash(h)) * (set w | w in addresses :: k.wallet(w))
  }

  ghost predicate NeverDeadlocks(k: Keys, hashes: set<Hash>, addresses: set<Address>) {
    forall clock, steps, s, d ::
      RunsTo(k, Start(EMPTY, clock), steps, s) && RunWithin(steps, hashes, addresses) ==> !Deadlocked(k, s, d)
  }

  lemma FewKeysNeverDeadlock(k: Keys, hashes: set<Hash>, addresses: set<Address>, clock: Time, steps: seq<Step>, s: State, d: set<nat>)
    requires AtMostOne(CommonKeys(k, hashes, addresses))
    requires RunsTo(k, Start(EMPTY, clock), steps, s) && RunWithin(steps, hashes, addresses)
    ensures !Deadlocked(k, s, d)
  {
    StaysWithin(k, Start(EMPTY, clock), steps, s, hashes, addresses);
    assert SharedKeys(k, s, d) <= CommonKeys(k, hashes, addresses);
    NoReachableDeadlock(k, EMPTY, clock, steps, s, d);
  }

  /** Operations on given hashes and addresses never deadlock if and only if those map to at most one common key. */
  lemma NeverDeadlocksIff(k: Keys, hashes: set<Hash>, addresses: set<Address>)
    ensures NeverDeadlocks(k, hashes, addresses) <==> AtMostOne(CommonKeys(k, hashes, addresses))
  {
    if AtMostOne(CommonKeys(k, hashes, addresses)) {
      forall clock, steps, s, d | RunsTo(k, Start(EMPTY, clock), steps, s) && RunWithin(steps, hashes, addresses)
        ensures !Deadlocked(k, s, d)
      {
        FewKeysNeverDeadlock(k, hashes, addresses, clock, steps, s, d);
      }
    } else {
      var x, y :| x in CommonKeys(k, hashes, addresses) && y in CommonKeys(k, hashes, addresses) && x != y;
      var h1 :| h1 in hashes && k.hash(h1) == x;
      var w1 :| w1 in addresses && k.wallet(w1) == x;
      var h2 :| h2 in hashes && k.hash(h2) == y;
      var w2 :| w2 in addresses && k.wallet(w2) == y;
      var s := TwoSharedKeysDeadlock(k, h1, w1, h2, w2);
      assert RunWithin(LoginSteps(1, h1, w2) + LoginSteps(2, h2, w1), hashes, addresses);
    }
  }
}
