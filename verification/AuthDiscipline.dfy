/** Every transaction of the repository obeys the locking discipline, statement by statement. */
module AuthDiscipline {
  import opened Prelude
  import opened AuthTables
  import opened AuthSpec
  import opened AuthLocking
  import opened AuthPlans
  import Lex

  // What each block of statements adds to the certificate.
  function HashCert(k: Keys, h: Hash, c: Cert): Cert {
    After(k, Check(HashFree(h)), After(k, AdviseHash(h), c))
  }

  function ActiveCert(k: Keys, a: AccountId, row: AccountRow, c: Cert): Cert {
    After(k, Check(AccountIs(a, row)), After(k, LockAccountRow(a), c))
  }

  function FreshCert(k: Keys, h: Hash, o: Oracle, c: Cert): Cert {
    After(k, Select(SessionIs(h, o.session)), ActiveCert(k, o.session.account, o.account, c))
  }

  function LockCert(k: Keys, a: Option<AccountId>, c: Cert): Cert {
    if a.Some? then After(k, LockAccountRow(a.value), c) else c
  }

  function SortedCert(k: Keys, a: Option<AccountId>, b: Option<AccountId>, c: Cert): Cert {
    if a.None? then LockCert(k, b, c)
    else if b.None? || a == b then LockCert(k, a, c)
    else if Lex.Less(a.value, b.value) then LockCert(k, b, LockCert(k, a, c))
    else LockCert(k, a, LockCert(k, b, c))
  }

  function RevokeCert(k: Keys, previous: Option<Hash>, o: Oracle, env: Env, c: Cert): Cert {
    match (previous, env.previous)
    case (Some(p), Some(a)) =>
      if o.previousRow.Some? && o.previousRow.value.account == a
      then After(k, Put(DeleteSession(p)), After(k, Select(SessionIs(p, o.previousRow.value)), c))
      else After(k, Check(NotSessionOf(p, a)), c)
    case _ => c
  }

  function SweepCert(k: Keys, t: Table, a: AccountId, keys: seq<Hash>, c: Cert): Cert {
    After(k, Put(DeleteAllOf(t, a, KeySet(keys))), After(k, Check(OnlyRows(t, a, KeySet(keys))), c))
  }

  /** A block may be put in front of `rest`: it is lawful, and leads from `c` to `end`. */
  ghost predicate Leads(k: Keys, block: Plan, rest: Plan, c: Cert, end: Cert) {
    && Disciplined(k, block, c)
    && (Passes(block) ==> Passes(rest) && Final(k, block, c) == Final(k, rest, end))
  }

  /** No row lock or account lock is held yet. */
  predicate OnlyAdvisory(c: Cert) {
    forall l :: l in c.held ==> l.Advisory?
  }

  /** One lawful statement in front of a block. */
  lemma Prepend(k: Keys, a: Action, p: Plan, rest: Plan, c: Cert, end: Cert)
    requires Allowed(k, a, c)
    requires (a.Require? ==> a.ok) ==> Leads(k, p, rest, After(k, a, c), end)
    ensures Leads(k, Do(a, p), rest, c, end)
  {}

  lemma HashLeads(k: Keys, h: Hash, rest: Plan, c: Cert)
    requires c.held == {} && Disciplined(k, rest, HashCert(k, h, c))
    ensures Leads(k, AssertHashUnused(h, rest), rest, c, HashCert(k, h, c))
  {
    var c1 := After(k, AdviseHash(h), c);
    Prepend(k, Check(HashFree(h)), rest, rest, c1, HashCert(k, h, c));
    Prepend(k, AdviseHash(h), Do(Check(HashFree(h)), rest), rest, c, HashCert(k, h, c));
  }

  lemma ActiveLeads(k: Keys, a: AccountId, row: AccountRow, rest: Plan, c: Cert)
    requires Allowed(k, LockAccountRow(a), c)
    requires row.status.Active? ==> Disciplined(k, rest, ActiveCert(k, a, row, c))
    ensures Leads(k, LockActive(a, row, rest), rest, c, ActiveCert(k, a, row, c))
    ensures Passes(LockActive(a, row, rest)) ==> row.status.Active?
  {
    var c1 := After(k, LockAccountRow(a), c);
    var c2 := After(k, Check(AccountIs(a, row)), c1);
    var p2 := Do(Require(row.status.Active?), rest);
    var p1 := Do(Check(AccountIs(a, row)), p2);
    Prepend(k, Require(row.status.Active?), rest, rest, c2, c2);
    Prepend(k, Check(AccountIs(a, row)), p2, rest, c1, c2);
    Prepend(k, LockAccountRow(a), p1, rest, c, c2);
    assert Passes(p1) ==> Passes(p2);
  }

  lemma FreshLeads(k: Keys, h: Hash, o: Oracle, env: Env, rest: Plan, c: Cert)
    requires OnlyAdvisory(c)
    requires o.account.status.Active? && FreshInMillis(o.session, env.jsClock) ==>
      Disciplined(k, rest, FreshCert(k, h, o, c))
    ensures Leads(k, LockFresh(h, o, env, rest), rest, c, FreshCert(k, h, o, c))
    ensures Passes(LockFresh(h, o, env, rest)) ==>
      o.account.status.Active? && FreshInSql(o.session, env.sqlClock) && FreshInMillis(o.session, env.jsClock)
  {
    var a := o.session.account;
    var c2 := ActiveCert(k, a, o.account, c);
    var c3 := FreshCert(k, h, o, c);
    var p7 := Do(Require(FreshInMillis(o.session, env.jsClock)), rest);
    var p6 := Do(ReadClock(env.jsClock), p7);
    var p5 := Do(Select(SessionIs(h, o.session)), p6);
    var p4 := Do(Require(FreshInSql(o.session, env.sqlClock)), p5);
    var p3 := Do(ReadClock(env.sqlClock), p4);
    if o.account.status.Active? {
      assert Disciplined(k, p7, c3);
      assert Disciplined(k, p6, c3);
      assert AccountLock(a) in c2.held;
      assert Disciplined(k, p5, c2);
      assert Disciplined(k, p4, c2);
      assert Disciplined(k, p3, c2);
    }
    ActiveLeads(k, a, o.account, p3, c);
    var p1 := LockActive(a, o.account, p3);
    assert LockFresh(h, o, env, rest) == Do(Peek(SessionOwnerIs(h, Some(a))), p1);
    if Passes(p1) {
      assert Passes(p3) && Passes(p4) && Passes(p5) && Passes(p6) && Passes(p7);
      assert Final(k, p3, c2) == Final(k, p4, c2) == Final(k, p5, c2) == Final(k, p6, c3) == Final(k, p7, c3);
    }
  }

  lemma SortedLeads(k: Keys, a: Option<AccountId>, b: Option<AccountId>, rest: Plan, c: Cert)
    requires OnlyAdvisory(c)
    requires Disciplined(k, rest, SortedCert(k, a, b, c))
    ensures Leads(k, LockSorted(a, b, rest), rest, c, SortedCert(k, a, b, c))
  {
    if a.Some? && b.Some? && a != b {
      Lex.Connected(a.value, b.value);
      var (lo, hi) := if Lex.Less(a.value, b.value) then (a.value, b.value) else (b.value, a.value);
      var c1 := After(k, LockAccountRow(lo), c);
      var end := SortedCert(k, a, b, c);
      Prepend(k, LockAccountRow(hi), rest, rest, c1, end);
      Prepend(k, LockAccountRow(lo), Do(LockAccountRow(hi), rest), rest, c, end);
    }
  }

  lemma RevokeLeads(k: Keys, previous: Option<Hash>, o: Oracle, env: Env, rest: Plan, c: Cert)
    requires PreviousAccount(previous, env).Some? ==> AccountLock(PreviousAccount(previous, env).value) in c.held
    requires Disciplined(k, rest, RevokeCert(k, previous, o, env, c))
    ensures Leads(k, Revoke(previous, o, env, rest), rest, c, RevokeCert(k, previous, o, env, c))
  {
    if previous.Some? && env.previous.Some? && o.previousRow.Some? && o.previousRow.value.account == env.previous.value {
      var c1 := After(k, Select(SessionIs(previous.value, o.previousRow.value)), c);
      var p1 := Do(Put(DeleteSession(previous.value)), rest);
      Prepend(k, Put(DeleteSession(previous.value)), rest, rest, c1, RevokeCert(k, previous, o, env, c));
      Prepend(k, Select(SessionIs(previous.value, o.previousRow.value)), p1, rest, c, RevokeCert(k, previous, o, env, c));
    }
  }

  lemma DiscoverLeads(k: Keys, previous: Option<Hash>, env: Env, rest: Plan, c: Cert)
    requires Disciplined(k, rest, c)
    ensures Leads(k, Discover(previous, env, rest), rest, c, c)
  {}

  lemma SweepLeads(k: Keys, t: Table, a: AccountId, keys: seq<Hash>, rest: Plan, c: Cert)
    requires AccountLock(a) in c.held && forall x :: x in keys ==> RowLock(t, x) in c.held
    requires Disciplined(k, rest, SweepCert(k, t, a, keys, c))
    ensures Leads(k, Sweep(t, a, keys, rest), rest, c, SweepCert(k, t, a, keys, c))
  {
    var c1 := After(k, Check(OnlyRows(t, a, KeySet(keys))), c);
    var sweep := Put(DeleteAllOf(t, a, KeySet(keys)));
    Prepend(k, sweep, rest, rest, c1, SweepCert(k, t, a, keys, c));
    Prepend(k, Check(OnlyRows(t, a, KeySet(keys))), Do(sweep, rest), rest, c, SweepCert(k, t, a, keys, c));
  }

  // ---- Row-by-row locking before an account-wide DELETE. ----

  function SessionsCert(k: Keys, a: AccountId, keys: seq<Hash>, rows: map<Hash, SessionRow>, c: Cert): Cert {
    if keys == [] || keys[0] !in rows then c
    else SessionsCert(k, a, keys[1..], rows, After(k, Select(SessionIs(keys[0], rows[keys[0]])), c))
  }

  function ChallengesCert(k: Keys, a: AccountId, keys: seq<Hash>, rows: map<Hash, ChallengeRow>, c: Cert): Cert {
    if keys == [] || keys[0] !in rows then c
    else ChallengesCert(k, a, keys[1..], rows, After(k, Select(ChallengeIs(keys[0], rows[keys[0]])), c))
  }

  function CodesCert(k: Keys, a: AccountId, keys: seq<Hash>, c: Cert): Cert {
    if keys == [] then c else CodesCert(k, a, keys[1..], After(k, Select(CodeIs(keys[0], a)), c))
  }

  /** Row locking only adds: earlier locks, facts and writes stay. */
  ghost predicate Extends(d: Cert, c: Cert) {
    c.held <= d.held && c.facts <= d.facts && d.writes == c.writes
  }

  lemma {:induction false} SessionsGrow(k: Keys, a: AccountId, keys: seq<Hash>, rows: map<Hash, SessionRow>, c: Cert)
    ensures Extends(SessionsCert(k, a, keys, rows, c), c)
    ensures (forall x :: x in keys ==> x in rows) ==>
      forall x :: x in keys ==> RowLock(Sessions, x) in SessionsCert(k, a, keys, rows, c).held
  {
    if keys != [] && keys[0] in rows {
      var d := After(k, Select(SessionIs(keys[0], rows[keys[0]])), c);
      SessionsGrow(k, a, keys[1..], rows, d);
      assert RowLock(Sessions, keys[0]) in d.held;
    }
  }

  lemma {:induction false} ChallengesGrow(k: Keys, a: AccountId, keys: seq<Hash>, rows: map<Hash, ChallengeRow>, c: Cert)
    ensures Extends(ChallengesCert(k, a, keys, rows, c), c)
    ensures (forall x :: x in keys ==> x in rows) ==>
      forall x :: x in keys ==> RowLock(Challenges, x) in ChallengesCert(k, a, keys, rows, c).held
  {
    if keys != [] && keys[0] in rows {
      var d := After(k, Select(ChallengeIs(keys[0], rows[keys[0]])), c);
      ChallengesGrow(k, a, keys[1..], rows, d);
      assert RowLock(Challenges, keys[0]) in d.held;
    }
  }

  lemma {:induction false} CodesGrow(k: Keys, a: AccountId, keys: seq<Hash>, c: Cert)
    ensures Extends(CodesCert(k, a, keys, c), c)
    ensures forall x :: x in keys ==> RowLock(Codes, x) in CodesCert(k, a, keys, c).held
  {
    if keys != [] {
      var d := After(k, Select(CodeIs(keys[0], a)), c);
      CodesGrow(k, a, keys[1..], d);
      assert RowLock(Codes, keys[0]) in d.held;
    }
  }

  lemma {:induction false} LockSessionsLeads(
    k: Keys, a: AccountId, keys: seq<Hash>, rows: map<Hash, SessionRow>, rest: Plan, c: Cert)
    requires AccountLock(a) in c.held
    requires (forall x :: x in keys ==> x in rows) ==> Disciplined(k, rest, SessionsCert(k, a, keys, rows, c))
    ensures Leads(k, LockSessions(a, keys, rows, rest), rest, c, SessionsCert(k, a, keys, rows, c))
    ensures Passes(LockSessions(a, keys, rows, rest)) ==> forall x :: x in keys ==> x in rows
    decreases |keys|
  {
    if keys != [] && keys[0] in rows {
      var row := rows[keys[0]];
      var c1 := After(k, Select(SessionIs(keys[0], row)), c);
      var end := SessionsCert(k, a, keys, rows, c);
      LockSessionsLeads(k, a, keys[1..], rows, rest, c1);
      var p2 := LockSessions(a, keys[1..], rows, rest);
      var p1 := Do(Select(SessionIs(keys[0], row)), p2);
      if row.account == a { Prepend(k, Select(SessionIs(keys[0], row)), p2, rest, c, end); }
      Prepend(k, Require(row.account == a), p1, rest, c, end);
      assert Passes(LockSessions(a, keys, rows, rest)) ==> Passes(p1) && Passes(p2);
    }
  }

  lemma {:induction false} LockChallengesLeads(
    k: Keys, a: AccountId, keys: seq<Hash>, rows: map<Hash, ChallengeRow>, rest: Plan, c: Cert)
    requires AccountLock(a) in c.held
    requires (forall x :: x in keys ==> x in rows) ==> Disciplined(k, rest, ChallengesCert(k, a, keys, rows, c))
    ensures Leads(k, LockChallenges(a, keys, rows, rest), rest, c, ChallengesCert(k, a, keys, rows, c))
    ensures Passes(LockChallenges(a, keys, rows, rest)) ==> forall x :: x in keys ==> x in rows
    decreases |keys|
  {
    if keys != [] && keys[0] in rows {
      var row := rows[keys[0]];
      var c1 := After(k, Select(ChallengeIs(keys[0], row)), c);
      var end := ChallengesCert(k, a, keys, rows, c);
      LockChallengesLeads(k, a, keys[1..], rows, rest, c1);
      var p2 := LockChallenges(a, keys[1..], rows, rest);
      var p1 := Do(Select(ChallengeIs(keys[0], row)), p2);
      if row.account == Some(a) { Prepend(k, Select(ChallengeIs(keys[0], row)), p2, rest, c, end); }
      Prepend(k, Require(row.account == Some(a)), p1, rest, c, end);
      assert Passes(LockChallenges(a, keys, rows, rest)) ==> Passes(p1) && Passes(p2);
    }
  }

  lemma {:induction false} LockCodesLeads(k: Keys, a: AccountId, keys: seq<Hash>, rest: Plan, c: Cert)
    requires AccountLock(a) in c.held
    requires Disciplined(k, rest, CodesCert(k, a, keys, c))
    ensures Leads(k, LockCodes(a, keys, rest), rest, c, CodesCert(k, a, keys, c))
    decreases |keys|
  {
    if keys != [] {
      LockCodesLeads(k, a, keys[1..], rest, After(k, Select(CodeIs(keys[0], a)), c));
    }
  }

  function InsertedCert(a: AccountId, codes: seq<Hash>, c: Cert): Cert {
    if codes == [] then c else InsertedCert(a, codes[1..], c.(writes := Then(c.writes, InsertCode(codes[0], a))))
  }

  lemma {:induction false} InsertCodesLeads(k: Keys, a: AccountId, codes: seq<Hash>, rest: Plan, c: Cert)
    requires AccountLock(a) in c.held
    requires Disciplined(k, rest, InsertedCert(a, codes, c))
    ensures Leads(k, InsertCodes(a, codes, rest), rest, c, InsertedCert(a, codes, c))
    decreases |codes|
  {
    if codes != [] {
      InsertCodesLeads(k, a, codes[1..], rest, After(k, Put(InsertCode(codes[0], a)), c));
    }
  }
}
