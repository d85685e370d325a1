/**
 * The commit of a transaction whose facts still hold is exactly one atomic operation: the pending
 * row changes produce the tables, and only the tables, that the operation produces at that instant.
 */
module AuthCommit {
  import opened Prelude
  import opened AuthTables
  import opened AuthSpec
  import opened AuthLocking
  import opened AuthPlans
  import opened AuthDiscipline
  import opened AuthLawful

  /** The pending changes of `c` commit on `db`, giving what the operation gives atomically. */
  ghost predicate CommitsAs(c: Cert, db: Db, op: Op, env: Env) {
    ApplyAll(c.writes, db).Some? ==>
      Exec(db, op, env).Ok? && Exec(db, op, env).value.db == ApplyAll(c.writes, db).value
  }

  // ---- What passing a block tells about the values it read. ----

  lemma FreshPasses(h: Hash, o: Oracle, env: Env, rest: Plan)
    requires Passes(LockFresh(h, o, env, rest))
    ensures Passes(rest) && o.account.status.Active?
    ensures FreshInSql(o.session, env.sqlClock) && FreshInMillis(o.session, env.jsClock)
  {
    var p7 := Do(Require(FreshInMillis(o.session, env.jsClock)), rest);
    var p6 := Do(ReadClock(env.jsClock), p7);
    var p5 := Do(Select(SessionIs(h, o.session)), p6);
    var p4 := Do(Require(FreshInSql(o.session, env.sqlClock)), p5);
    var p3 := Do(ReadClock(env.sqlClock), p4);
    ActivePasses(o.session.account, o.account, p3);
    assert Passes(p4) && Passes(p5) && Passes(p6) && Passes(p7);
  }

  lemma ActivePasses(a: AccountId, row: AccountRow, rest: Plan)
    requires Passes(LockActive(a, row, rest))
    ensures Passes(rest) && row.status.Active?
  {
    assert Passes(Do(Check(AccountIs(a, row)), Do(Require(row.status.Active?), rest)));
    assert Passes(Do(Require(row.status.Active?), rest));
  }

  lemma HashPasses(h: Hash, rest: Plan)
    requires Passes(AssertHashUnused(h, rest))
    ensures Passes(rest)
  {
    assert Passes(Do(Check(HashFree(h)), rest));
  }

  /** A fresh session with its facts in place is what `FreshSession` returns. */
  lemma FreshExec(h: Hash, o: Oracle, env: Env, db: Db)
    requires Holds(SessionIs(h, o.session), db) && Holds(AccountIs(o.session.account, o.account), db)
    requires o.account.status.Active?
    requires FreshInSql(o.session, env.sqlClock) && FreshInMillis(o.session, env.jsClock)
    ensures FreshSession(db, h, env) == Ok(o.session)
  {}

  lemma FreshFacts(k: Keys, h: Hash, o: Oracle, c: Cert)
    ensures SessionIs(h, o.session) in FreshCert(k, h, o, c).facts
    ensures AccountIs(o.session.account, o.account) in FreshCert(k, h, o, c).facts
    ensures c.facts <= FreshCert(k, h, o, c).facts && FreshCert(k, h, o, c).writes == c.writes
  {}

  /** Revoking the previous session by its pending change is revoking it atomically. */
  lemma RevokeCommits(k: Keys, previous: Option<Hash>, o: Oracle, env: Env, c: Cert, db: Db, mid: Db)
    requires FactsHold(RevokeCert(k, previous, o, env, c), db)
    requires ApplyAll(c.writes, db) == Some(mid) && mid.sessions == db.sessions
    ensures ApplyAll(RevokeCert(k, previous, o, env, c).writes, db) == Some(RevokePrevious(mid, previous, env.previous))
  {
    var end := RevokeCert(k, previous, o, env, c);
    match (previous, env.previous)
    case (Some(p), Some(a)) =>
      if o.previousRow.Some? && o.previousRow.value.account == a {
        assert SessionIs(p, o.previousRow.value) in end.facts;
        assert ApplyAll(end.writes, db) == Apply(DeleteSession(p), mid);
      } else {
        assert NotSessionOf(p, a) in end.facts;
        assert Holds(NotSessionOf(p, a), db);
        assert p !in SessionsOf(db, a);
      }
    case _ =>
  }

  lemma IssueCommits(k: Keys, op: Op, env: Env, o: Oracle, db: Db)
    requires op.IssueChallenge? && Passes(IssuePlan(op, env, o))
    requires FactsHold(IssueCert(k, op, env, o), db)
    ensures CommitsAs(IssueCert(k, op, env, o), db, op, env)
  {
    var c1 := HashCert(k, op.hash, FRESH_CERT);
    assert HashFree(op.hash) in c1.facts;
    if op.viaSession.None? {
      assert HashFree(op.hash) in IssueCert(k, op, env, o).facts;
    } else {
      PresentedIssueCommits(k, op, env, o, db);
    }
  }

  /** An issue whose session is known to be fresh, of the account read. */
  lemma PresentedIssueExec(op: Op, env: Env, o: Oracle, db: Db)
    requires op.IssueChallenge? && op.viaSession.Some? && IssueShape(op)
    requires op.kind.NeedsHandle() ==> Some(o.account.handle) == op.handle
    requires HashUnused(db, op.hash) && FreshSession(db, op.viaSession.value, env) == Ok(o.session)
    requires Holds(AccountIs(o.session.account, o.account), db)
    ensures Exec(db, op, env) == Ok(IssueFor(db, op, env, Some(o.session.account)))
  {}

  lemma PresentedIssuePasses(op: Op, env: Env, o: Oracle)
    requires op.IssueChallenge? && op.viaSession.Some? && Passes(IssuePlan(op, env, o))
    ensures IssueShape(op) && (op.kind.NeedsHandle() ==> Some(o.account.handle) == op.handle)
    ensures o.account.status.Active? && FreshInSql(o.session, env.sqlClock) && FreshInMillis(o.session, env.jsClock)
  {
    var h := op.viaSession.value;
    var last := Do(Put(InsertChallenge(op.hash, IssuedRow(op, env, Some(o.session.account)))), Done);
    var gated := Do(Require(op.kind.NeedsHandle() ==> Some(o.account.handle) == op.handle), last);
    HashPasses(op.hash, LockFresh(h, o, env, gated));
    FreshPasses(h, o, env, gated);
    assert Passes(gated);
  }

  lemma PresentedIssueEnd(k: Keys, op: Op, env: Env, o: Oracle)
    requires op.IssueChallenge? && op.viaSession.Some?
    ensures var end := IssueCert(k, op, env, o);
      && HashFree(op.hash) in end.facts && SessionIs(op.viaSession.value, o.session) in end.facts
      && AccountIs(o.session.account, o.account) in end.facts
      && end.writes == Then(NoWrites, InsertChallenge(op.hash, IssuedRow(op, env, Some(o.session.account))))
  {
    var c1 := HashCert(k, op.hash, FRESH_CERT);
    assert HashFree(op.hash) in c1.facts;
    FreshFacts(k, op.viaSession.value, o, c1);
  }

  lemma PresentedIssueCommits(k: Keys, op: Op, env: Env, o: Oracle, db: Db)
    requires op.IssueChallenge? && op.viaSession.Some? && Passes(IssuePlan(op, env, o))
    requires FactsHold(IssueCert(k, op, env, o), db)
    ensures CommitsAs(IssueCert(k, op, env, o), db, op, env)
  {
    PresentedIssuePasses(op, env, o);
    PresentedIssueEnd(k, op, env, o);
    FreshExec(op.viaSession.value, o, env, db);
    PresentedIssueExec(op, env, o, db);
    assert ApplyAll(FRESH_CERT.writes, db) == Some(db);
  }

  lemma ConsumeCommits(k: Keys, op: Op, env: Env, o: Oracle, db: Db)
    requires op.ConsumeChallenge? && Passes(ConsumePlan(op, env, o))
    requires FactsHold(ConsumeCert(k, op, o), db)
    ensures CommitsAs(ConsumeCert(k, op, o), db, op, env)
  {
    var bound := if op.viaSession.None? then None else Some(o.session.account);
    var take := TakeChallenge(op, env, o, bound);
    if op.viaSession.Some? {
      FreshPasses(op.viaSession.value, o, env, take);
      FreshFacts(k, op.viaSession.value, o, FRESH_CERT);
      FreshExec(op.viaSession.value, o, env, db);
    }
    var select := Do(Select(ChallengeIs(op.hash, o.challenge)), Do(Put(DeleteChallenge(op.hash)), Done));
    assert Passes(Do(Require(Matches(o.challenge, op, bound, env.deleteClock)), select));
    assert ChallengeIs(op.hash, o.challenge) in ConsumeCert(k, op, o).facts;
    assert ConsumeCert(k, op, o).writes == Then(NoWrites, DeleteChallenge(op.hash));
    assert ApplyAll(NoWrites, db) == Some(db);
  }

  lemma CreateEnd(k: Keys, op: Op, env: Env, o: Oracle)
    requires op.CreatePasskeyAccount?
    ensures HashFree(op.session) in CreateCert(k, op, env, o).facts
    ensures CreatedCert(k, op, env).writes == CreatedWrites(op, env)
    ensures CreateCert(k, op, env, o) ==
      After(k, Put(InsertSession(op.session, NewSession(env.freshAccount, ByPasskey, env))),
            RevokeCert(k, op.previous, o, env, CreatedCert(k, op, env)))
  {
    var prev := PreviousAccount(op.previous, env);
    var c1 := HashCert(k, op.session, FRESH_CERT);
    LockCertHolds(k, None, prev, c1);
    assert HashFree(op.session) in c1.facts;
    assert HashFree(op.session) in CreatedCert(k, op, env).facts;
    RevokeGrows(k, op.previous, o, env, CreatedCert(k, op, env));
  }

  function CreatedWrites(op: Op, env: Env): Writes
    requires op.CreatePasskeyAccount?
  {
    Then(Then(NoWrites, InsertAccount(env.freshAccount, AccountRow(op.newHandle, Active))),
         InsertPasskey(op.id, PasskeyRow(env.freshAccount, op.credential)))
  }

  function CreatedCert(k: Keys, op: Op, env: Env): Cert
    requires op.CreatePasskeyAccount?
  {
    var c2 := SortedCert(k, None, PreviousAccount(op.previous, env), HashCert(k, op.session, FRESH_CERT));
    After(k, Put(InsertPasskey(op.id, PasskeyRow(env.freshAccount, op.credential))),
          After(k, Put(InsertAccount(env.freshAccount, AccountRow(op.newHandle, Active))), c2))
  }

  lemma CreatedApply(op: Op, env: Env, db: Db)
    requires op.CreatePasskeyAccount? && ApplyAll(CreatedWrites(op, env), db).Some?
    ensures env.freshAccount !in db.accounts && op.newHandle !in HandlesIn(db) && op.id !in db.passkeys
    ensures ApplyAll(CreatedWrites(op, env), db).value == db.(
      accounts := db.accounts[env.freshAccount := AccountRow(op.newHandle, Active)],
      passkeys := db.passkeys[op.id := PasskeyRow(env.freshAccount, op.credential)])
  {
    var w1 := Then(NoWrites, InsertAccount(env.freshAccount, AccountRow(op.newHandle, Active)));
    assert ApplyAll(NoWrites, db) == Some(db);
    assert ApplyAll(w1, db) == Apply(w1.last, db);
  }

  lemma CreateCommits(k: Keys, op: Op, env: Env, o: Oracle, db: Db)
    requires op.CreatePasskeyAccount? && Passes(CreatePlan(op, env, o))
    requires FactsHold(CreateCert(k, op, env, o), db)
    ensures CommitsAs(CreateCert(k, op, env, o), db, op, env)
  {
    CreateEnd(k, op, env, o);
    var c4 := CreatedCert(k, op, env);
    assert Holds(HashFree(op.session), db);
    if ApplyAll(CreateCert(k, op, env, o).writes, db).Some? {
      AppliesBefore(k, op.previous, o, env, c4, db);
      CreatedApply(op, env, db);
      RevokeCommits(k, op.previous, o, env, c4, db, ApplyAll(c4.writes, db).value);
    }
  }

  lemma AppliesBefore(k: Keys, previous: Option<Hash>, o: Oracle, env: Env, c: Cert, db: Db)
    requires ApplyAll(RevokeCert(k, previous, o, env, c).writes, db).Some?
    ensures ApplyAll(c.writes, db).Some?
  {}

  lemma LoginPasskeyEnd(k: Keys, op: Op, env: Env, o: Oracle, c3: Cert)
    requires op.LoginPasskey?
    requires c3 == After(k, Check(AccountIs(op.account, o.account)),
                         SortedCert(k, Some(op.account), PreviousAccount(op.previous, env), HashCert(k, op.session, FRESH_CERT)))
    ensures var c4 := RevokeCert(k, op.previous, o, env, c3); var end := LoginPasskeyCert(k, op, env, o);
      && HashFree(op.session) in end.facts && AccountIs(op.account, o.account) in end.facts
      && PasskeyIs(op.id, o.passkey) in end.facts && c4.facts <= end.facts && c3.writes == NoWrites
      && end.writes == LoginWrites(c4.writes, op, env)
  {
    var c1 := HashCert(k, op.session, FRESH_CERT);
    LockCertHolds(k, Some(op.account), PreviousAccount(op.previous, env), c1);
    RevokeGrows(k, op.previous, o, env, c3);
    assert HashFree(op.session) in c1.facts && HashFree(op.session) in c3.facts && AccountIs(op.account, o.account) in c3.facts;
  }

  function LoginWrites(before: Writes, op: Op, env: Env): Writes
    requires op.LoginPasskey?
  {
    Then(Then(before, UpdatePasskey(op.id, op.newCounter, op.backedUp)),
         InsertSession(op.session, NewSession(op.account, ByPasskey, env)))
  }

  lemma LoginPasskeyCommits(k: Keys, op: Op, env: Env, o: Oracle, db: Db)
    requires op.LoginPasskey? && Passes(LoginPasskeyPlan(op, env, o))
    requires FactsHold(LoginPasskeyCert(k, op, env, o), db)
    ensures CommitsAs(LoginPasskeyCert(k, op, env, o), db, op, env)
  {
    LoginPasskeyLawful(k, op, env, o);
    var c3 := After(k, Check(AccountIs(op.account, o.account)),
                    SortedCert(k, Some(op.account), PreviousAccount(op.previous, env), HashCert(k, op.session, FRESH_CERT)));
    LoginPasskeyEnd(k, op, env, o, c3);
    var c4 := RevokeCert(k, op.previous, o, env, c3);
    assert Holds(HashFree(op.session), db) && Holds(AccountIs(op.account, o.account), db) && Holds(PasskeyIs(op.id, o.passkey), db);
    assert FactsHold(c4, db) && ApplyAll(NoWrites, db) == Some(db);
    RevokeCommits(k, op.previous, o, env, c3, db, db);
    LoginExec(op, env, o, c4.writes, db);
  }

  lemma LoginExec(op: Op, env: Env, o: Oracle, before: Writes, db: Db)
    requires op.LoginPasskey? && LoginShape(op) && o.account.status.Active? && SameSnapshot(o.passkey, op)
    requires HashUnused(db, op.session) && Holds(AccountIs(op.account, o.account), db) && Holds(PasskeyIs(op.id, o.passkey), db)
    requires ApplyAll(before, db) == Some(RevokePrevious(db, op.previous, env.previous))
    ensures var ws := LoginWrites(before, op, env);
      ApplyAll(ws, db).Some? ==> Exec(db, op, env).Ok? && Exec(db, op, env).value.db == ApplyAll(ws, db).value
  {
    var update := UpdatePasskey(op.id, op.newCounter, op.backedUp);
    assert ApplyAll(Then(before, update), db) == Apply(update, RevokePrevious(db, op.previous, env.previous));
  }

  lemma KnownWalletFacts(k: Keys, op: Op, env: Env, o: Oracle, a: AccountId, c: Cert)
    requires op.LoginWallet? && HashFree(op.session) in c.facts
    ensures var end := KnownWalletCert(k, op, env, o, a, c);
      HashFree(op.session) in end.facts && AccountIs(a, o.account) in end.facts && WalletIs(op.address, o.owner) in end.facts
  {
    var c1 := After(k, Check(AccountIs(a, o.account)), After(k, Select(WalletIs(op.address, o.owner)), c));
    RevokeGrows(k, op.previous, o, env, c1);
    assert HashFree(op.session) in c1.facts && AccountIs(a, o.account) in c1.facts && WalletIs(op.address, o.owner) in c1.facts;
  }

  lemma KnownWalletCommits(k: Keys, op: Op, env: Env, o: Oracle, a: AccountId, c: Cert, db: Db)
    requires op.LoginWallet? && o.owner == Some(a) && o.account.status.Active? && op.previous != Some(op.session)
    requires c.writes == NoWrites && HashFree(op.session) in c.facts
    requires FactsHold(KnownWalletCert(k, op, env, o, a, c), db)
    ensures CommitsAs(KnownWalletCert(k, op, env, o, a, c), db, op, env)
  {
    var c1 := After(k, Check(AccountIs(a, o.account)), After(k, Select(WalletIs(op.address, o.owner)), c));
    KnownWalletFacts(k, op, env, o, a, c);
    assert FactsHold(RevokeCert(k, op.previous, o, env, c1), db);
    assert ApplyAll(NoWrites, db) == Some(db) && c1.writes == NoWrites;
    RevokeCommits(k, op.previous, o, env, c1, db, db);
  }

  lemma NewWalletCommits(k: Keys, op: Op, env: Env, o: Oracle, c: Cert, db: Db)
    requires op.LoginWallet? && o.owner == None && op.previous != Some(op.session)
    requires c.writes == NoWrites && HashFree(op.session) in c.facts
    requires PreviousAccount(op.previous, env).Some? ==>
      o.account.status.Active? && AccountIs(PreviousAccount(op.previous, env).value, o.account) in c.facts
    requires FactsHold(NewWalletCert(k, op, env, o, c), db)
    ensures CommitsAs(NewWalletCert(k, op, env, o, c), db, op, env)
  {
    var row := AccountRow(env.freshHandle, Active);
    var c1 := After(k, Put(InsertAccount(env.freshAccount, row)), c);
    var c2 := After(k, Put(InsertWallet(op.address, env.freshAccount)), c1);
    var end := NewWalletCert(k, op, env, o, c);
    RevokeGrows(k, op.previous, o, env, c2);
    assert HashFree(op.session) in end.facts && Holds(HashFree(op.session), db);
    if PreviousAccount(op.previous, env).Some? {
      assert AccountIs(PreviousAccount(op.previous, env).value, o.account) in end.facts;
      assert Holds(AccountIs(PreviousAccount(op.previous, env).value, o.account), db);
    }
    if ApplyAll(end.writes, db).Some? {
      AppliesBefore(k, op.previous, o, env, c2, db);
      NewWalletApply(op, env, c2.writes, db);
      RevokeCommits(k, op.previous, o, env, c2, db, ApplyAll(c2.writes, db).value);
      NewWalletExec(op, env, o, db);
    }
  }

  lemma NewWalletApply(op: Op, env: Env, ws: Writes, db: Db)
    requires op.LoginWallet? && ApplyAll(ws, db).Some?
    requires ws == Then(Then(NoWrites, InsertAccount(env.freshAccount, AccountRow(env.freshHandle, Active))),
                        InsertWallet(op.address, env.freshAccount))
    ensures env.freshAccount !in db.accounts && env.freshHandle !in HandlesIn(db) && op.address !in db.wallets
    ensures ApplyAll(ws, db).value == WithWallet(op, env, db)
  {
    assert ApplyAll(NoWrites, db) == Some(db);
    assert ApplyAll(ws.before, db) == Apply(ws.before.last, db);
  }

  function WithWallet(op: Op, env: Env, db: Db): Db
    requires op.LoginWallet?
  {
    db.(accounts := db.accounts[env.freshAccount := AccountRow(env.freshHandle, Active)],
        wallets := db.wallets[op.address := env.freshAccount])
  }

  lemma NewWalletExec(op: Op, env: Env, o: Oracle, db: Db)
    requires op.LoginWallet? && op.previous != Some(op.session) && HashUnused(db, op.session)
    requires PreviousAccount(op.previous, env).Some? ==>
      o.account.status.Active? && Holds(AccountIs(PreviousAccount(op.previous, env).value, o.account), db)
    requires env.freshAccount !in db.accounts && env.freshHandle !in HandlesIn(db) && op.address !in db.wallets
    ensures Exec(db, op, env).Ok? && Exec(db, op, env).value.db ==
      WithSession(RevokePrevious(WithWallet(op, env, db), op.previous, env.previous), op.session,
                  NewSession(env.freshAccount, ByWallet, env)).db
  {}

  lemma LoginWalletCommits(k: Keys, op: Op, env: Env, o: Oracle, db: Db)
    requires op.LoginWallet? && Passes(LoginWalletPlan(op, env, o))
    requires FactsHold(LoginWalletCert(k, op, env, o), db)
    ensures CommitsAs(LoginWalletCert(k, op, env, o), db, op, env)
  {
    LoginWalletLawful(k, op, env, o);
    var prev := PreviousAccount(op.previous, env);
    var c1 := HashCert(k, op.session, FRESH_CERT);
    var c3 := After(k, Check(WalletIs(op.address, o.owner)), After(k, AdviseWallet(op.address), c1));
    LockCertHolds(k, o.owner, prev, c3);
    var c := WalletLockedCert(k, op, env, o);
    assert HashFree(op.session) in c1.facts && HashFree(op.session) in c.facts;
    match o.owner
    case Some(a) => KnownWalletCommits(k, op, env, o, a, c, db);
    case None =>
      match prev {
        case Some(p) => NewWalletCommits(k, op, env, o, ActiveCert(k, p, o.account, c), db);
        case None => NewWalletCommits(k, op, env, o, c, db);
      }
      WalletStillFree(k, op, env, o, db);
  }

  lemma NewWalletGrows(k: Keys, op: Op, env: Env, o: Oracle, c: Cert)
    requires op.LoginWallet?
    ensures c.facts <= NewWalletCert(k, op, env, o, c).facts
  {
    var c1 := After(k, Put(InsertAccount(env.freshAccount, AccountRow(env.freshHandle, Active))), c);
    RevokeGrows(k, op.previous, o, env, After(k, Put(InsertWallet(op.address, env.freshAccount)), c1));
  }

  lemma WalletStillFree(k: Keys, op: Op, env: Env, o: Oracle, db: Db)
    requires op.LoginWallet? && o.owner == None
    requires FactsHold(LoginWalletCert(k, op, env, o), db)
    ensures op.address !in db.wallets
  {
    var c1 := HashCert(k, op.session, FRESH_CERT);
    var c3 := After(k, Check(WalletIs(op.address, None)), After(k, AdviseWallet(op.address), c1));
    LockCertHolds(k, None, PreviousAccount(op.previous, env), c3);
    var c := WalletLockedCert(k, op, env, o);
    assert WalletIs(op.address, None) in c.facts;
    var d := match PreviousAccount(op.previous, env) case Some(p) => ActiveCert(k, p, o.account, c) case None => c;
    NewWalletGrows(k, op, env, o, d);
    assert WalletIs(op.address, None) in d.facts;
    assert Holds(WalletIs(op.address, None), db);
  }

  lemma AddPasskeyEnd(k: Keys, op: Op, o: Oracle)
    requires op.AddPasskey?
    ensures var end := AddPasskeyCert(k, op, o);
      && SessionIs(op.session, o.session) in end.facts && AccountIs(o.session.account, o.account) in end.facts
      && PasskeysBelow(o.session.account, MAX_CREDENTIALS_PER_ACCOUNT) in end.facts
      && end.writes == Then(NoWrites, InsertPasskey(op.id, PasskeyRow(o.session.account, op.credential)))
  {
    FreshFacts(k, op.session, o, FRESH_CERT);
  }

  lemma AddPasskeyCommits(k: Keys, op: Op, env: Env, o: Oracle, db: Db)
    requires op.AddPasskey? && Passes(AddPasskeyPlan(op, env, o))
    requires FactsHold(AddPasskeyCert(k, op, o), db)
    ensures CommitsAs(AddPasskeyCert(k, op, o), db, op, env)
  {
    var a := o.session.account;
    var count := PasskeysBelow(a, MAX_CREDENTIALS_PER_ACCOUNT);
    var insert := InsertPasskey(op.id, PasskeyRow(a, op.credential));
    var p4 := Do(Require(o.account.handle == op.ownHandle), Do(Check(count), Do(Put(insert), Done)));
    var p3 := LockActive(a, o.account, p4);
    assert Passes(Do(Peek(CredentialFree(op.id)), LockFresh(op.session, o, env, p3)));
    FreshPasses(op.session, o, env, p3);
    ActivePasses(a, o.account, p4);
    AddPasskeyEnd(k, op, o);
    assert Holds(AccountIs(a, o.account), db) && Holds(count, db);
    FreshExec(op.session, o, env, db);
    AddExec(op, env, o, db);
  }

  lemma AddExec(op: Op, env: Env, o: Oracle, db: Db)
    requires op.AddPasskey? && op.credential.Acceptable() && FreshSession(db, op.session, env) == Ok(o.session)
    requires Holds(AccountIs(o.session.account, o.account), db) && o.account.handle == op.ownHandle
    requires |PasskeysOf(db, o.session.account)| < MAX_CREDENTIALS_PER_ACCOUNT
    ensures var ws := Then(NoWrites, InsertPasskey(op.id, PasskeyRow(o.session.account, op.credential)));
      ApplyAll(ws, db).Some? ==> Exec(db, op, env).Ok? && Exec(db, op, env).value.db == ApplyAll(ws, db).value
  {
    assert ApplyAll(NoWrites, db) == Some(db);
  }

  lemma LinkWalletEnd(k: Keys, op: Op, o: Oracle)
    requires op.LinkWallet?
    ensures var end := LinkWalletCert(k, op, o);
      && SessionIs(op.session, o.session) in end.facts && AccountIs(o.session.account, o.account) in end.facts
      && WalletsBelow(o.session.account, MAX_WALLETS_PER_ACCOUNT) in end.facts
      && end.writes == Then(NoWrites, InsertWallet(op.address, o.session.account))
  {
    FreshFacts(k, op.session, o, After(k, AdviseWallet(op.address), FRESH_CERT));
  }

  lemma LinkWalletCommits(k: Keys, op: Op, env: Env, o: Oracle, db: Db)
    requires op.LinkWallet? && Passes(LinkWalletPlan(op, env, o))
    requires FactsHold(LinkWalletCert(k, op, o), db)
    ensures CommitsAs(LinkWalletCert(k, op, o), db, op, env)
  {
    var a := o.session.account;
    var p3 := Do(Select(WalletIs(op.address, None)), Do(Check(WalletsBelow(a, MAX_WALLETS_PER_ACCOUNT)),
              Do(Put(InsertWallet(op.address, a)), Done)));
    assert Passes(LockFresh(op.session, o, env, LockActive(a, o.account, p3)));
    FreshPasses(op.session, o, env, LockActive(a, o.account, p3));
    LinkWalletEnd(k, op, o);
    FreshExec(op.session, o, env, db);
    assert Holds(WalletsBelow(a, MAX_WALLETS_PER_ACCOUNT), db);
    LinkExec(op, env, o, db);
  }

  lemma LinkExec(op: Op, env: Env, o: Oracle, db: Db)
    requires op.LinkWallet? && FreshSession(db, op.session, env) == Ok(o.session)
    requires |WalletsOf(db, o.session.account)| < MAX_WALLETS_PER_ACCOUNT
    ensures var ws := Then(NoWrites, InsertWallet(op.address, o.session.account));
      ApplyAll(ws, db).Some? ==> Exec(db, op, env).Ok? && Exec(db, op, env).value.db == ApplyAll(ws, db).value
  {
    assert ApplyAll(NoWrites, db) == Some(db);
  }

  /** Inserting the codes one by one adds exactly the listed codes, none of which existed. */
  lemma {:induction false} InsertedCommits(a: AccountId, codes: seq<Hash>, c: Cert, db: Db, mid: Db)
    requires ApplyAll(c.writes, db) == Some(mid)
    requires ApplyAll(InsertedCert(a, codes, c).writes, db).Some?
    ensures ApplyAll(InsertedCert(a, codes, c).writes, db).value == mid.(codes := mid.codes + Minted(codes, a))
    ensures forall h :: h in codes ==> h !in mid.codes
    decreases |codes|
  {
    if codes == [] {
      assert mid.codes + Minted(codes, a) == mid.codes;
    } else {
      var d := c.(writes := Then(c.writes, InsertCode(codes[0], a)));
      assert ApplyAll(d.writes, db) == Apply(InsertCode(codes[0], a), mid);
      InsertedNeeds(a, codes[1..], d, db);
      InsertedCommits(a, codes[1..], d, db, mid.(codes := mid.codes[codes[0] := a]));
      AddAll(mid.codes, a, codes);
    }
  }

  /** Adding the first code and then the others adds them all. */
  lemma AddAll(m: map<Hash, AccountId>, a: AccountId, codes: seq<Hash>)
    requires codes != []
    ensures m[codes[0] := a] + Minted(codes[1..], a) == m + Minted(codes, a)
    ensures forall h :: h in codes ==> h == codes[0] || h in codes[1..]
  {}

  lemma {:induction false} InsertedNeeds(a: AccountId, codes: seq<Hash>, c: Cert, db: Db)
    requires ApplyAll(InsertedCert(a, codes, c).writes, db).Some?
    ensures ApplyAll(c.writes, db).Some?
    decreases |codes|
  {
    if codes != [] { InsertedNeeds(a, codes[1..], c.(writes := Then(c.writes, InsertCode(codes[0], a))), db); }
  }

  lemma {:induction false} InsertedFacts(a: AccountId, codes: seq<Hash>, c: Cert)
    ensures InsertedCert(a, codes, c).facts == c.facts && InsertedCert(a, codes, c).held == c.held
    decreases |codes|
  {
    if codes != [] { InsertedFacts(a, codes[1..], c.(writes := Then(c.writes, InsertCode(codes[0], a)))); }
  }

  lemma ReplaceEnd(k: Keys, op: Op, o: Oracle)
    requires op.ReplaceRecoveryCodes?
    ensures var end := ReplaceCert(k, op, o); var a := o.session.account; var c4 := ReplaceSwept(k, op, o);
      && SessionIs(op.session, o.session) in end.facts && AccountIs(a, o.account) in end.facts
      && c4.writes == Then(NoWrites, DeleteAllOf(Codes, a, KeySet(o.codeKeys))) && end == InsertedCert(a, op.codes, c4)
  {
    var a := o.session.account;
    FreshFacts(k, op.session, o, FRESH_CERT);
    var c2 := OwnerCert(k, op.session, o, FRESH_CERT);
    assert SessionIs(op.session, o.session) in c2.facts && AccountIs(a, o.account) in c2.facts;
    CodesGrow(k, a, o.codeKeys, c2);
    InsertedFacts(a, op.codes, ReplaceSwept(k, op, o));
  }

  function ReplaceSwept(k: Keys, op: Op, o: Oracle): Cert
    requires op.ReplaceRecoveryCodes?
  {
    var a := o.session.account;
    SweepCert(k, Codes, a, o.codeKeys, CodesCert(k, a, o.codeKeys, OwnerCert(k, op.session, o, FRESH_CERT)))
  }

  lemma ReplaceCommits(k: Keys, op: Op, env: Env, o: Oracle, db: Db)
    requires op.ReplaceRecoveryCodes? && Passes(ReplacePlan(op, env, o))
    requires FactsHold(ReplaceCert(k, op, o), db)
    ensures CommitsAs(ReplaceCert(k, op, o), db, op, env)
  {
    ReplaceLawful(k, op, env, o);
    var a := o.session.account;
    var p3 := LockActive(a, o.account, LockCodes(a, o.codeKeys, Sweep(Codes, a, o.codeKeys, InsertCodes(a, op.codes, Done))));
    FreshPasses(op.session, o, env, Do(Require(!o.session.via.ByRecovery?), p3));
    ReplaceEnd(k, op, o);
    FreshExec(op.session, o, env, db);
    ReplaceExec(op, env, o, ReplaceSwept(k, op, o), db);
  }

  lemma ReplaceExec(op: Op, env: Env, o: Oracle, c: Cert, db: Db)
    requires op.ReplaceRecoveryCodes? && |op.codes| == REQUIRED_RECOVERY_CODES && Distinct(op.codes)
    requires FreshSession(db, op.session, env) == Ok(o.session) && !o.session.via.ByRecovery?
    requires c.writes == Then(NoWrites, DeleteAllOf(Codes, o.session.account, KeySet(o.codeKeys)))
    ensures CommitsAs(InsertedCert(o.session.account, op.codes, c), db, op, env)
  {
    var a := o.session.account;
    var cleared := db.(codes := db.codes - CodesOf(db, a));
    assert ApplyAll(NoWrites, db) == Some(db);
    assert ApplyAll(c.writes, db) == Some(cleared);
    if ApplyAll(InsertedCert(a, op.codes, c).writes, db).Some? {
      InsertedCommits(a, op.codes, c, db, cleared);
      ReplaceSettles(op, env, o, db);
    }
  }

  /** The operation, once its session is known to be fresh. */
  lemma ReplaceSettles(op: Op, env: Env, o: Oracle, db: Db)
    requires op.ReplaceRecoveryCodes? && |op.codes| == REQUIRED_RECOVERY_CODES && Distinct(op.codes)
    requires FreshSession(db, op.session, env) == Ok(o.session) && !o.session.via.ByRecovery?
    requires forall h :: h in op.codes ==> h !in db.codes - CodesOf(db, o.session.account)
    ensures Exec(db, op, env).Ok?
    ensures var cleared := db.codes - CodesOf(db, o.session.account);
      Exec(db, op, env).value.db == db.(codes := cleared + Minted(op.codes, o.session.account))
  {
    var cleared := db.codes - CodesOf(db, o.session.account);
    assert !AnyTaken(op.codes, cleared);
    assert ExecReplace(db, op, env) == Ok(Committed(db.(codes := cleared + Minted(op.codes, o.session.account)), NoReply));
  }

  lemma RedeemEnd(k: Keys, op: Op, env: Env, o: Oracle)
    requires op.RedeemRecoveryCode?
    ensures var end := RedeemCert(k, op, env, o); var a := o.codeAccount;
      && HashFree(op.session) in end.facts && AccountIs(a, o.account) in end.facts && CodeIs(op.code, a) in end.facts
      && end.writes == RedeemWrites(op, env, o)
  {
    var a := o.codeAccount;
    CodeTakenFacts(k, op, o);
    SessionsGrow(k, a, o.sessionKeys, o.sessionRows, CodeTakenCert(k, op, o));
    ChallengesGrow(k, a, o.challengeKeys, o.challengeRows, SessionsSweptCert(k, op, o));
  }

  lemma CodeTakenFacts(k: Keys, op: Op, o: Oracle)
    requires op.RedeemRecoveryCode?
    ensures var c := CodeTakenCert(k, op, o);
      && HashFree(op.session) in c.facts && AccountIs(o.codeAccount, o.account) in c.facts
      && CodeIs(op.code, o.codeAccount) in c.facts && c.writes == Then(NoWrites, DeleteCode(op.code))
  {
    assert HashFree(op.session) in HashCert(k, op.session, FRESH_CERT).facts;
  }

  function RedeemWrites(op: Op, env: Env, o: Oracle): Writes
    requires op.RedeemRecoveryCode?
  {
    var a := o.codeAccount;
    Then(Then(Then(Then(NoWrites, DeleteCode(op.code)),
      DeleteAllOf(Sessions, a, KeySet(o.sessionKeys))),
      DeleteAllOf(Challenges, a, KeySet(o.challengeKeys))),
      InsertSession(op.session, NewSession(a, ByRecovery, env)))
  }

  lemma RedeemExec(op: Op, env: Env, o: Oracle, db: Db)
    requires op.RedeemRecoveryCode? && op.code != op.session && o.account.status.Active?
    requires HashUnused(db, op.session) && Holds(AccountIs(o.codeAccount, o.account), db) && Holds(CodeIs(op.code, o.codeAccount), db)
    ensures ApplyAll(RedeemWrites(op, env, o), db).Some? ==>
      Exec(db, op, env).Ok? && Exec(db, op, env).value.db == ApplyAll(RedeemWrites(op, env, o), db).value
  {
    var a := o.codeAccount;
    var w1 := Then(NoWrites, DeleteCode(op.code));
    var w2 := Then(w1, DeleteAllOf(Sessions, a, KeySet(o.sessionKeys)));
    var w3 := Then(w2, DeleteAllOf(Challenges, a, KeySet(o.challengeKeys)));
    var db1 := db.(codes := db.codes - {op.code});
    var db2 := db1.(sessions := db.sessions - SessionsOf(db, a));
    var db3 := db2.(challenges := db.challenges - ChallengesOf(db, a));
    assert ApplyAll(NoWrites, db) == Some(db);
    assert ApplyAll(w1, db) == Some(db1);
    assert ApplyAll(w2, db) == Some(db2);
    assert ApplyAll(w3, db) == Some(db3);
  }

  lemma RedeemCommits(k: Keys, op: Op, env: Env, o: Oracle, db: Db)
    requires op.RedeemRecoveryCode? && Passes(RedeemPlan(op, env, o))
    requires FactsHold(RedeemCert(k, op, env, o), db)
    ensures CommitsAs(RedeemCert(k, op, env, o), db, op, env)
  {
    RedeemLawful(k, op, env, o);
    RedeemEnd(k, op, env, o);
    assert Holds(HashFree(op.session), db) && Holds(CodeIs(op.code, o.codeAccount), db);
    RedeemExec(op, env, o, db);
  }

  lemma LogoutCommits(k: Keys, op: Op, env: Env, o: Oracle, db: Db)
    requires op.Logout?
    ensures CommitsAs(LogoutCert(k, op, env, o), db, op, env)
  {
    assert ApplyAll(NoWrites, db) == Some(db);
  }

  /** A completed transaction whose facts hold commits as its atomic operation. */
  lemma EveryCommitIsAtomic(k: Keys, op: Op, env: Env, o: Oracle, db: Db)
    requires Passes(PlanOf(op, env, o)) && FactsHold(EndCert(k, op, env, o), db)
    ensures CommitsAs(EndCert(k, op, env, o), db, op, env)
  {
    match op
    case IssueChallenge(_, _, _, _, _, _, _) => IssueCommits(k, op, env, o, db);
    case ConsumeChallenge(_, _, _, _) => ConsumeCommits(k, op, env, o, db);
    case CreatePasskeyAccount(_, _, _, _, _) => CreateCommits(k, op, env, o, db);
    case LoginPasskey(_, _, _, _, _, _, _) => LoginPasskeyCommits(k, op, env, o, db);
    case LoginWallet(_, _, _) => LoginWalletCommits(k, op, env, o, db);
    case Logout(_) => LogoutCommits(k, op, env, o, db);
    case AddPasskey(_, _, _, _) => AddPasskeyCommits(k, op, env, o, db);
    case LinkWallet(_, _) => LinkWalletCommits(k, op, env, o, db);
    case ReplaceRecoveryCodes(_, _) => ReplaceCommits(k, op, env, o, db);
    case RedeemRecoveryCode(_, _) => RedeemCommits(k, op, env, o, db);
    case Purge(_, _) =>
  }
}
