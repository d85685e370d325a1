/**
 * Who waits for whom, as a graph: each node wants at most one lock and holds a set of locks. A
 * knot is a set of nodes that all wait inside the set. The rules below forbid every knot.
 */
module WaitGraphs {
  import opened Prelude
  import opened AuthLocking
  import Lex

  datatype Node = Node(wants: Option<Lock>, holds: set<Lock>)
  type Graph = map<nat, Node>

  predicate Edge(g: Graph, id: nat, owner: nat) {
    id in g && owner in g && id != owner && g[id].wants.Some? && g[id].wants.value in g[owner].holds
  }

  ghost predicate WaitsIn(g: Graph, d: set<nat>, id: nat) {
    exists owner :: owner in d && Edge(g, id, owner)
  }

  /** Every member of `d` waits for a lock that another member holds. */
  ghost predicate Knot(g: Graph, d: set<nat>) {
    d != {} && forall id {:trigger WaitsIn(g, d, id)} :: id in d ==> WaitsIn(g, d, id)
  }

  ghost predicate Exclusive(g: Graph) {
    forall i, j, l :: i in g && j in g && l in g[i].holds && l in g[j].holds ==> i == j
  }

  /**
   * What is known when `id` waits for `owner` and `owner` waits too: a waiter for a row holds
   * nothing; the owner of a wanted account wants a row or a greater account; a waiter that holds
   * something and wants the advisory lock of another advisory waiter wants one of the shared keys.
   */
  ghost predicate Rule(shared: set<int>, want: Lock, holds: set<Lock>, ownerWants: Lock) {
    match want
    case RowLock(_, _) => holds == {}
    case AccountLock(a) => ownerWants.RowLock? || (ownerWants.AccountLock? && Lex.Less(a, ownerWants.account))
    case Advisory(key) => holds == {} || !ownerWants.Advisory? || key in shared
  }

  ghost predicate Orderly(shared: set<int>, g: Graph) {
    forall id, o, p :: Edge(g, id, o) && Edge(g, o, p) ==>
      Rule(shared, g[id].wants.value, g[id].holds, g[o].wants.value)
  }

  lemma {:induction false} Greatest(names: set<string>) returns (m: string)
    requires names != {}
    ensures m in names && forall x :: x in names ==> !Lex.Less(m, x)
    decreases |names|
  {
    Lex.IsStrictTotal();
    m :| m in names;
    if exists x :: x in names && Lex.Less(m, x) {
      var above := set x | x in names && Lex.Less(m, x);
      assert above <= names && m in names - above;
      assert |names - above| > 0;
      assert names == above + (names - above);
      var low := m;
      m := Greatest(above);
      assert forall x :: Lex.Less(m, x) ==> Lex.Less(low, x);
    }
  }

  function WantedAccounts(g: Graph, d: set<nat>): set<string> {
    set id | id in d && id in g && g[id].wants.Some? && g[id].wants.value.AccountLock? :: g[id].wants.value.account
  }

  /** A knot whose members all hold something. */
  ghost predicate HoldingKnot(g: Graph, d: set<nat>) {
    Knot(g, d) && forall id :: id in d && id in g ==> g[id].holds != {}
  }

  /** Two waits along a knot. */
  lemma Follow(g: Graph, d: set<nat>, id: nat) returns (o: nat, p: nat)
    requires Knot(g, d) && id in d
    ensures o in d && p in d && Edge(g, id, o) && Edge(g, o, p)
  {
    assert WaitsIn(g, d, id);
    o :| o in d && Edge(g, id, o);
    assert WaitsIn(g, d, o);
    p :| p in d && Edge(g, o, p);
  }

  lemma NoRowWaiter(shared: set<int>, g: Graph, d: set<nat>, id: nat)
    requires Orderly(shared, g) && HoldingKnot(g, d) && id in d
    ensures id in g && g[id].wants.Some? && !g[id].wants.value.RowLock?
  {
    var o, p := Follow(g, d, id);
  }

  lemma NoAccountWaiter(shared: set<int>, g: Graph, d: set<nat>)
    requires Orderly(shared, g) && HoldingKnot(g, d)
    ensures WantedAccounts(g, d) == {}
  {
    if WantedAccounts(g, d) != {} {
      var top := Greatest(WantedAccounts(g, d));
      var id :| id in d && id in g && g[id].wants == Some(AccountLock(top));
      var o, p := Follow(g, d, id);
      NoRowWaiter(shared, g, d, o);
    }
  }

  lemma AdvisoryWaiter(shared: set<int>, g: Graph, d: set<nat>, id: nat)
    requires Orderly(shared, g) && HoldingKnot(g, d) && id in d
    ensures id in g && g[id].wants.Some? && g[id].wants.value.Advisory? && g[id].wants.value.key in shared
  {
    NoAccountWaiter(shared, g, d);
    var o, p := Follow(g, d, id);
    NoRowWaiter(shared, g, d, id);
    NoRowWaiter(shared, g, d, o);
    assert forall x, a :: x in d && x in g && g[x].wants == Some(AccountLock(a)) ==> a in WantedAccounts(g, d);
  }

  /** The members of a knot that hold something form a knot by themselves. */
  lemma KnotOfHolders(g: Graph, d: set<nat>)
    requires Knot(g, d)
    ensures HoldingKnot(g, set id | id in d && id in g && g[id].holds != {})
  {
    var e := set id | id in d && id in g && g[id].holds != {};
    forall id | id in d ensures WaitsIn(g, e, id) {
      var o, _ := Follow(g, d, id);
      assert o in e;
    }
    var id :| id in d;
    assert WaitsIn(g, e, id);
  }

  /** In an orderly graph with exclusive locks a knot needs two different shared keys. */
  lemma KnotNeedsTwoKeys(shared: set<int>, g: Graph, d: set<nat>) returns (x: int, y: int)
    requires Orderly(shared, g) && Exclusive(g) && Knot(g, d)
    ensures x in shared && y in shared && x != y
  {
    KnotOfHolders(g, d);
    var e := set id | id in d && id in g && g[id].holds != {};
    var id :| id in e;
    var o, _ := Follow(g, e, id);
    AdvisoryWaiter(shared, g, e, id);
    AdvisoryWaiter(shared, g, e, o);
    x, y := g[id].wants.value.key, g[o].wants.value.key;
    var _, _ := Follow(g, e, o);
  }
}
