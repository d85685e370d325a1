/**
 * Every operation's statement list is lawful from the first statement to the last, and what a
 * completed transaction has established is the certificate named here.
 */
module AuthLawful {
  import opened Prelude
  import opened AuthTables
  import opened AuthSpec
  import opened AuthLocking
  import opened AuthPlans
  import opened AuthDiscipline

  function IssueCert(k: Keys, op: Op, env: Env, o: Oracle): Cert
    requires op.IssueChallenge?
  {
    var c1 := HashCert(k, op.hash, FRESH_CERT);
    if op.viaSession.None? then After(k, Put(InsertChallenge(op.hash, IssuedRow(op, env, None))), c1)
    else After(k, Put(InsertChallenge(op.hash, IssuedRow(op, env, Some(o.session.account)))),
               FreshCert(k, op.viaSession.value, o, c1))
  }

  lemma IssueLawful(k: Keys, op: Op, env: Env, o: Oracle)
    requires op.IssueChallenge?
    ensures Leads(k, IssuePlan(op, env, o), Done, FRESH_CERT, IssueCert(k, op, env, o))
  {
    var end := IssueCert(k, op, env, o);
    var c1 := HashCert(k, op.hash, FRESH_CERT);
    if op.viaSession.None? {
      var last := Do(Put(InsertChallenge(op.hash, IssuedRow(op, env, None))), Done);
      Prepend(k, last.action, Done, Done, c1, end);
      HashLeads(k, op.hash, last, FRESH_CERT);
      Prepend(k, Require(IssueShape(op)), AssertHashUnused(op.hash, last), Done, FRESH_CERT, end);
    } else {
      var c2 := FreshCert(k, op.viaSession.value, o, c1);
      var last := Do(Put(InsertChallenge(op.hash, IssuedRow(op, env, Some(o.session.account)))), Done);
      Prepend(k, last.action, Done, Done, c2, end);
      var gate := Require(op.kind.NeedsHandle() ==> Some(o.account.handle) == op.handle);
      Prepend(k, gate, last, Done, c2, end);
      FreshLeads(k, op.viaSession.value, o, env, Do(gate, last), c1);
      var p1 := LockFresh(op.viaSession.value, o, env, Do(gate, last));
      HashLeads(k, op.hash, p1, FRESH_CERT);
      Prepend(k, Require(IssueShape(op)), AssertHashUnused(op.hash, p1), Done, FRESH_CERT, end);
    }
  }

  function TakeCert(k: Keys, op: Op, o: Oracle, c: Cert): Cert
    requires op.ConsumeChallenge?
  {
    After(k, Put(DeleteChallenge(op.hash)), After(k, Select(ChallengeIs(op.hash, o.challenge)), c))
  }

  function ConsumeCert(k: Keys, op: Op, o: Oracle): Cert
    requires op.ConsumeChallenge?
  {
    TakeCert(k, op, o, if op.viaSession.None? then FRESH_CERT else FreshCert(k, op.viaSession.value, o, FRESH_CERT))
  }

  lemma TakeLeads(k: Keys, op: Op, env: Env, o: Oracle, bound: Option<AccountId>, c: Cert)
    requires op.ConsumeChallenge?
    requires if bound.None? then c.held == {} else AccountLock(bound.value) in c.held
    ensures Leads(k, TakeChallenge(op, env, o, bound), Done, c, TakeCert(k, op, o, c))
  {
    var end := TakeCert(k, op, o, c);
    var select := Select(ChallengeIs(op.hash, o.challenge));
    var last := Do(Put(DeleteChallenge(op.hash)), Done);
    Prepend(k, last.action, Done, Done, After(k, select, c), end);
    if Matches(o.challenge, op, bound, env.deleteClock) { Prepend(k, select, last, Done, c, end); }
    var gate := Require(Matches(o.challenge, op, bound, env.deleteClock));
    Prepend(k, gate, Do(select, last), Done, c, end);
    Prepend(k, ReadClock(env.deleteClock), Do(gate, Do(select, last)), Done, c, end);
  }

  lemma ConsumeLawful(k: Keys, op: Op, env: Env, o: Oracle)
    requires op.ConsumeChallenge?
    ensures Leads(k, ConsumePlan(op, env, o), Done, FRESH_CERT, ConsumeCert(k, op, o))
  {
    var end := ConsumeCert(k, op, o);
    var gate := Require(op.kind.NeedsSession() == op.viaSession.Some?);
    if op.viaSession.None? {
      TakeLeads(k, op, env, o, None, FRESH_CERT);
      Prepend(k, gate, TakeChallenge(op, env, o, None), Done, FRESH_CERT, end);
    } else {
      var bound := Some(o.session.account);
      TakeLeads(k, op, env, o, bound, FreshCert(k, op.viaSession.value, o, FRESH_CERT));
      FreshLeads(k, op.viaSession.value, o, env, TakeChallenge(op, env, o, bound), FRESH_CERT);
      Prepend(k, gate, LockFresh(op.viaSession.value, o, env, TakeChallenge(op, env, o, bound)), Done, FRESH_CERT, end);
    }
  }

  lemma LockCertHolds(k: Keys, a: Option<AccountId>, b: Option<AccountId>, c: Cert)
    ensures a.Some? ==> AccountLock(a.value) in SortedCert(k, a, b, c).held
    ensures b.Some? ==> AccountLock(b.value) in SortedCert(k, a, b, c).held
    ensures c.held <= SortedCert(k, a, b, c).held
    ensures SortedCert(k, a, b, c).facts == c.facts && SortedCert(k, a, b, c).writes == c.writes
  {}

  lemma RevokeGrows(k: Keys, previous: Option<Hash>, o: Oracle, env: Env, c: Cert)
    ensures c.held <= RevokeCert(k, previous, o, env, c).held && c.facts <= RevokeCert(k, previous, o, env, c).facts
    ensures forall a :: InsertsAccount(c.writes, a) ==> InsertsAccount(RevokeCert(k, previous, o, env, c).writes, a)
  {}

  function CreateCert(k: Keys, op: Op, env: Env, o: Oracle): Cert
    requires op.CreatePasskeyAccount?
  {
    var c2 := SortedCert(k, None, PreviousAccount(op.previous, env), HashCert(k, op.session, FRESH_CERT));
    var c3 := After(k, Put(InsertAccount(env.freshAccount, AccountRow(op.newHandle, Active))), c2);
    var c4 := After(k, Put(InsertPasskey(op.id, PasskeyRow(env.freshAccount, op.credential))), c3);
    var c5 := RevokeCert(k, op.previous, o, env, c4);
    After(k, Put(InsertSession(op.session, NewSession(env.freshAccount, ByPasskey, env))), c5)
  }

  function CreateTail(op: Op, env: Env, o: Oracle): Plan
    requires op.CreatePasskeyAccount?
  {
    Do(Put(InsertAccount(env.freshAccount, AccountRow(op.newHandle, Active))),
    Do(Put(InsertPasskey(op.id, PasskeyRow(env.freshAccount, op.credential))),
    Revoke(op.previous, o, env,
    Do(Put(InsertSession(op.session, NewSession(env.freshAccount, ByPasskey, env))), Done))))
  }

  /** The inserts, once the previous account is locked. */
  lemma CreateTailLeads(k: Keys, op: Op, env: Env, o: Oracle)
    requires op.CreatePasskeyAccount?
    ensures Leads(k, CreateTail(op, env, o), Done,
                  SortedCert(k, None, PreviousAccount(op.previous, env), HashCert(k, op.session, FRESH_CERT)),
                  CreateCert(k, op, env, o))
  {
    var end := CreateCert(k, op, env, o);
    var prev := PreviousAccount(op.previous, env);
    var c1 := HashCert(k, op.session, FRESH_CERT);
    var c2 := SortedCert(k, None, prev, c1);
    LockCertHolds(k, None, prev, c1);
    var account := Put(InsertAccount(env.freshAccount, AccountRow(op.newHandle, Active)));
    var passkey := Put(InsertPasskey(op.id, PasskeyRow(env.freshAccount, op.credential)));
    var session := Put(InsertSession(op.session, NewSession(env.freshAccount, ByPasskey, env)));
    var c3 := After(k, account, c2);
    var c4 := After(k, passkey, c3);
    var c5 := RevokeCert(k, op.previous, o, env, c4);
    assert InsertsAccount(c3.writes, env.freshAccount) && InsertsAccount(c4.writes, env.freshAccount);
    RevokeGrows(k, op.previous, o, env, c4);
    assert Advisory(k.hash(op.session)) in c1.held;
    Prepend(k, session, Done, Done, c5, end);
    RevokeLeads(k, op.previous, o, env, Do(session, Done), c4);
    var p5 := Revoke(op.previous, o, env, Do(session, Done));
    Prepend(k, passkey, p5, Done, c3, end);
    Prepend(k, account, Do(passkey, p5), Done, c2, end);
  }

  lemma CreateLawful(k: Keys, op: Op, env: Env, o: Oracle)
    requires op.CreatePasskeyAccount?
    ensures Leads(k, CreatePlan(op, env, o), Done, FRESH_CERT, CreateCert(k, op, env, o))
  {
    var end := CreateCert(k, op, env, o);
    var prev := PreviousAccount(op.previous, env);
    var c1 := HashCert(k, op.session, FRESH_CERT);
    CreateTailLeads(k, op, env, o);
    SortedLeads(k, None, prev, CreateTail(op, env, o), c1);
    var p4 := LockSorted(None, prev, CreateTail(op, env, o));
    DiscoverLeads(k, op.previous, env, p4, c1);
    var p3 := Discover(op.previous, env, p4);
    Prepend(k, Peek(CredentialFree(op.id)), p3, Done, c1, end);
    var p2 := Do(Peek(CredentialFree(op.id)), p3);
    Prepend(k, Peek(HandleFree(op.newHandle)), p2, Done, c1, end);
    var p1 := Do(Peek(HandleFree(op.newHandle)), p2);
    HashLeads(k, op.session, p1, FRESH_CERT);
    Prepend(k, Require(op.credential.Acceptable() && op.previous != Some(op.session)),
            AssertHashUnused(op.session, p1), Done, FRESH_CERT, end);
  }

  function LoginPasskeyCert(k: Keys, op: Op, env: Env, o: Oracle): Cert
    requires op.LoginPasskey?
  {
    var c2 := SortedCert(k, Some(op.account), PreviousAccount(op.previous, env), HashCert(k, op.session, FRESH_CERT));
    var c3 := After(k, Check(AccountIs(op.account, o.account)), c2);
    var c4 := RevokeCert(k, op.previous, o, env, c3);
    var c5 := After(k, Select(PasskeyIs(op.id, o.passkey)), c4);
    var c6 := After(k, Put(UpdatePasskey(op.id, op.newCounter, op.backedUp)), c5);
    After(k, Put(InsertSession(op.session, NewSession(op.account, ByPasskey, env))), c6)
  }

  function LoginPasskeyTail(op: Op, env: Env, o: Oracle): Plan
    requires op.LoginPasskey?
  {
    Do(Check(AccountIs(op.account, o.account)),
    Do(Require(o.account.status.Active?),
    Revoke(op.previous, o, env, LoginPasskeyEnd(op, env, o))))
  }

  function LoginPasskeyEnd(op: Op, env: Env, o: Oracle): Plan
    requires op.LoginPasskey?
  {
    Do(Require(SameSnapshot(o.passkey, op)),
    Do(Select(PasskeyIs(op.id, o.passkey)),
    Do(Put(UpdatePasskey(op.id, op.newCounter, op.backedUp)),
    Do(Put(InsertSession(op.session, NewSession(op.account, ByPasskey, env))), Done))))
  }

  /** What a passkey login has established once its accounts are locked and its own has been read. */
  function LoginPasskeyLockedCert(k: Keys, op: Op, env: Env, o: Oracle): Cert
    requires op.LoginPasskey?
  {
    After(k, Check(AccountIs(op.account, o.account)),
          SortedCert(k, Some(op.account), PreviousAccount(op.previous, env), HashCert(k, op.session, FRESH_CERT)))
  }

  /** After the previous session is revoked: read the snapshot again, update, issue the session. */
  lemma LoginPasskeyEndLeads(k: Keys, op: Op, env: Env, o: Oracle)
    requires op.LoginPasskey?
    ensures Leads(k, LoginPasskeyEnd(op, env, o), Done,
                  RevokeCert(k, op.previous, o, env, LoginPasskeyLockedCert(k, op, env, o)), LoginPasskeyCert(k, op, env, o))
    ensures Passes(LoginPasskeyEnd(op, env, o)) ==> SameSnapshot(o.passkey, op)
  {
    var end := LoginPasskeyCert(k, op, env, o);
    var prev := PreviousAccount(op.previous, env);
    var c1 := HashCert(k, op.session, FRESH_CERT);
    LockCertHolds(k, Some(op.account), prev, c1);
    var c3 := LoginPasskeyLockedCert(k, op, env, o);
    var c4 := RevokeCert(k, op.previous, o, env, c3);
    RevokeGrows(k, op.previous, o, env, c3);
    var select := Select(PasskeyIs(op.id, o.passkey));
    var update := Put(UpdatePasskey(op.id, op.newCounter, op.backedUp));
    var session := Put(InsertSession(op.session, NewSession(op.account, ByPasskey, env)));
    var c5 := After(k, select, c4);
    assert Advisory(k.hash(op.session)) in c1.held;
    Prepend(k, session, Done, Done, After(k, update, c5), end);
    Prepend(k, update, Do(session, Done), Done, c5, end);
    var p8 := Do(update, Do(session, Done));
    if SameSnapshot(o.passkey, op) {
      assert AccountLock(op.account) in c4.held;
      Prepend(k, select, p8, Done, c4, end);
    }
    Prepend(k, Require(SameSnapshot(o.passkey, op)), Do(select, p8), Done, c4, end);
  }

  /** From the check of the account on. */
  lemma LoginPasskeyTailLeads(k: Keys, op: Op, env: Env, o: Oracle)
    requires op.LoginPasskey?
    ensures Leads(k, LoginPasskeyTail(op, env, o), Done,
                  SortedCert(k, Some(op.account), PreviousAccount(op.previous, env), HashCert(k, op.session, FRESH_CERT)),
                  LoginPasskeyCert(k, op, env, o))
    ensures Passes(LoginPasskeyTail(op, env, o)) ==> o.account.status.Active? && SameSnapshot(o.passkey, op)
  {
    var end := LoginPasskeyCert(k, op, env, o);
    var prev := PreviousAccount(op.previous, env);
    var c1 := HashCert(k, op.session, FRESH_CERT);
    var c2 := SortedCert(k, Some(op.account), prev, c1);
    var c3 := LoginPasskeyLockedCert(k, op, env, o);
    LockCertHolds(k, Some(op.account), prev, c1);
    LoginPasskeyEndLeads(k, op, env, o);
    var p7 := LoginPasskeyEnd(op, env, o);
    RevokeLeads(k, op.previous, o, env, p7, c3);
    var p6 := Revoke(op.previous, o, env, p7);
    var active := Require(o.account.status.Active?);
    Prepend(k, active, p6, Done, c3, end);
    Prepend(k, Check(AccountIs(op.account, o.account)), Do(active, p6), Done, c2, end);
    assert Passes(LoginPasskeyTail(op, env, o)) ==> Passes(Do(active, p6)) && Passes(p6) && Passes(p7);
  }

  lemma LoginPasskeyLawful(k: Keys, op: Op, env: Env, o: Oracle)
    requires op.LoginPasskey?
    ensures Leads(k, LoginPasskeyPlan(op, env, o), Done, FRESH_CERT, LoginPasskeyCert(k, op, env, o))
    ensures Passes(LoginPasskeyPlan(op, env, o)) ==> o.account.status.Active? && SameSnapshot(o.passkey, op)
  {
    var end := LoginPasskeyCert(k, op, env, o);
    var prev := PreviousAccount(op.previous, env);
    var c1 := HashCert(k, op.session, FRESH_CERT);
    LoginPasskeyTailLeads(k, op, env, o);
    var p5 := LoginPasskeyTail(op, env, o);
    SortedLeads(k, Some(op.account), prev, p5, c1);
    var p4 := LockSorted(Some(op.account), prev, p5);
    DiscoverLeads(k, op.previous, env, p4, c1);
    var p3 := Discover(op.previous, env, p4);
    Prepend(k, Peek(PasskeyOwnerIs(op.id, op.account)), p3, Done, c1, end);
    var p2 := Do(Peek(PasskeyOwnerIs(op.id, op.account)), p3);
    HashLeads(k, op.session, p2, FRESH_CERT);
    Prepend(k, Require(LoginShape(op)), AssertHashUnused(op.session, p2), Done, FRESH_CERT, end);
    assert Passes(p2) ==> Passes(p3) && Passes(p4) && Passes(p5);
  }

  /** What a wallet login has established once its accounts are locked. */
  function WalletLockedCert(k: Keys, op: Op, env: Env, o: Oracle): Cert
    requires op.LoginWallet?
  {
    var c1 := HashCert(k, op.session, FRESH_CERT);
    var c3 := After(k, Check(WalletIs(op.address, o.owner)), After(k, AdviseWallet(op.address), c1));
    SortedCert(k, o.owner, PreviousAccount(op.previous, env), c3)
  }

  function NewWalletCert(k: Keys, op: Op, env: Env, o: Oracle, c: Cert): Cert
    requires op.LoginWallet?
  {
    var c1 := After(k, Put(InsertAccount(env.freshAccount, AccountRow(env.freshHandle, Active))), c);
    var c2 := After(k, Put(InsertWallet(op.address, env.freshAccount)), c1);
    After(k, Put(InsertSession(op.session, NewSession(env.freshAccount, ByWallet, env))),
          RevokeCert(k, op.previous, o, env, c2))
  }

  function KnownWalletCert(k: Keys, op: Op, env: Env, o: Oracle, a: AccountId, c: Cert): Cert
    requires op.LoginWallet?
  {
    var c1 := After(k, Check(AccountIs(a, o.account)), After(k, Select(WalletIs(op.address, o.owner)), c));
    After(k, Put(InsertSession(op.session, NewSession(a, ByWallet, env))), RevokeCert(k, op.previous, o, env, c1))
  }

  function LoginWalletCert(k: Keys, op: Op, env: Env, o: Oracle): Cert
    requires op.LoginWallet?
  {
    var c := WalletLockedCert(k, op, env, o);
    if o.owner.Some? then KnownWalletCert(k, op, env, o, o.owner.value, c)
    else
      match PreviousAccount(op.previous, env)
      case Some(p) => NewWalletCert(k, op, env, o, ActiveCert(k, p, o.account, c))
      case None => NewWalletCert(k, op, env, o, c)
  }

  lemma NewWalletLeads(k: Keys, op: Op, env: Env, o: Oracle, c: Cert)
    requires op.LoginWallet?
    requires Advisory(k.hash(op.session)) in c.held && Advisory(k.wallet(op.address)) in c.held
    requires PreviousAccount(op.previous, env).Some? ==> AccountLock(PreviousAccount(op.previous, env).value) in c.held
    ensures Leads(k, NewWalletPlan(op, env, o), Done, c, NewWalletCert(k, op, env, o, c))
  {
    var end := NewWalletCert(k, op, env, o, c);
    var account := Put(InsertAccount(env.freshAccount, AccountRow(env.freshHandle, Active)));
    var wallet := Put(InsertWallet(op.address, env.freshAccount));
    var session := Put(InsertSession(op.session, NewSession(env.freshAccount, ByWallet, env)));
    var c1 := After(k, account, c);
    var c2 := After(k, wallet, c1);
    assert InsertsAccount(c1.writes, env.freshAccount) && InsertsAccount(c2.writes, env.freshAccount);
    RevokeGrows(k, op.previous, o, env, c2);
    Prepend(k, session, Done, Done, RevokeCert(k, op.previous, o, env, c2), end);
    RevokeLeads(k, op.previous, o, env, Do(session, Done), c2);
    var p3 := Revoke(op.previous, o, env, Do(session, Done));
    Prepend(k, wallet, p3, Done, c1, end);
    Prepend(k, account, Do(wallet, p3), Done, c, end);
  }

  lemma KnownWalletLeads(k: Keys, op: Op, env: Env, o: Oracle, a: AccountId, c: Cert)
    requires op.LoginWallet? && o.owner == Some(a)
    requires Advisory(k.hash(op.session)) in c.held && Advisory(k.wallet(op.address)) in c.held
    requires AccountLock(a) in c.held
    requires PreviousAccount(op.previous, env).Some? ==> AccountLock(PreviousAccount(op.previous, env).value) in c.held
    ensures Leads(k, KnownWalletPlan(op, env, o, a), Done, c, KnownWalletCert(k, op, env, o, a, c))
    ensures Passes(KnownWalletPlan(op, env, o, a)) ==> o.account.status.Active?
  {
    var end := KnownWalletCert(k, op, env, o, a, c);
    var select := Select(WalletIs(op.address, o.owner));
    var check := Check(AccountIs(a, o.account));
    var active := Require(o.account.status.Active?);
    var session := Put(InsertSession(op.session, NewSession(a, ByWallet, env)));
    var c1 := After(k, select, c);
    var c2 := After(k, check, c1);
    RevokeGrows(k, op.previous, o, env, c2);
    Prepend(k, session, Done, Done, RevokeCert(k, op.previous, o, env, c2), end);
    RevokeLeads(k, op.previous, o, env, Do(session, Done), c2);
    var p3 := Revoke(op.previous, o, env, Do(session, Done));
    Prepend(k, active, p3, Done, c2, end);
    Prepend(k, check, Do(active, p3), Done, c1, end);
    Prepend(k, select, Do(check, Do(active, p3)), Done, c, end);
    assert Passes(KnownWalletPlan(op, env, o, a)) ==> Passes(Do(check, Do(active, p3))) && Passes(Do(active, p3));
  }

  lemma WalletTailLeads(k: Keys, op: Op, env: Env, o: Oracle)
    requires op.LoginWallet?
    ensures Leads(k, WalletTail(op, env, o), Done, WalletLockedCert(k, op, env, o), LoginWalletCert(k, op, env, o))
    ensures Passes(WalletTail(op, env, o)) && (o.owner.Some? || PreviousAccount(op.previous, env).Some?) ==>
      o.account.status.Active?
  {
    var c1 := HashCert(k, op.session, FRESH_CERT);
    var c2 := After(k, AdviseWallet(op.address), c1);
    var c3 := After(k, Check(WalletIs(op.address, o.owner)), c2);
    var c := WalletLockedCert(k, op, env, o);
    LockCertHolds(k, o.owner, PreviousAccount(op.previous, env), c3);
    assert Advisory(k.hash(op.session)) in c1.held && Advisory(k.wallet(op.address)) in c2.held;
    match o.owner
    case Some(a) => KnownWalletLeads(k, op, env, o, a, c);
    case None =>
      match PreviousAccount(op.previous, env) {
        case Some(p) =>
          NewWalletLeads(k, op, env, o, ActiveCert(k, p, o.account, c));
          ActiveLeads(k, p, o.account, NewWalletPlan(op, env, o), c);
        case None => NewWalletLeads(k, op, env, o, c);
      }
  }

  lemma LoginWalletLawful(k: Keys, op: Op, env: Env, o: Oracle)
    requires op.LoginWallet?
    ensures Leads(k, LoginWalletPlan(op, env, o), Done, FRESH_CERT, LoginWalletCert(k, op, env, o))
    ensures Passes(LoginWalletPlan(op, env, o)) && (o.owner.Some? || PreviousAccount(op.previous, env).Some?) ==>
      o.account.status.Active?
  {
    var end := LoginWalletCert(k, op, env, o);
    var prev := PreviousAccount(op.previous, env);
    var c1 := HashCert(k, op.session, FRESH_CERT);
    var c2 := After(k, AdviseWallet(op.address), c1);
    var check := Check(WalletIs(op.address, o.owner));
    var c3 := After(k, check, c2);
    WalletTailLeads(k, op, env, o);
    var p5 := WalletTail(op, env, o);
    SortedLeads(k, o.owner, prev, p5, c3);
    var p4 := LockSorted(o.owner, prev, p5);
    DiscoverLeads(k, op.previous, env, p4, c3);
    var p3 := Discover(op.previous, env, p4);
    Prepend(k, check, p3, Done, c2, end);
    Prepend(k, AdviseWallet(op.address), Do(check, p3), Done, c1, end);
    var p2 := Do(AdviseWallet(op.address), Do(check, p3));
    HashLeads(k, op.session, p2, FRESH_CERT);
    Prepend(k, Require(op.previous != Some(op.session)), AssertHashUnused(op.session, p2), Done, FRESH_CERT, end);
    assert Passes(p2) ==> Passes(Do(check, p3)) && Passes(p3) && Passes(p4) && Passes(p5);
  }

  function LogoutCert(k: Keys, op: Op, env: Env, o: Oracle): Cert
    requires op.Logout?
  {
    if env.found then After(k, Put(DeleteSession(op.session)), After(k, Select(SessionIs(op.session, o.session)), FRESH_CERT))
    else FRESH_CERT
  }

  lemma LogoutLawful(k: Keys, op: Op, env: Env, o: Oracle)
    requires op.Logout?
    ensures Leads(k, LogoutPlan(op, env, o), Done, FRESH_CERT, LogoutCert(k, op, env, o))
  {
    var end := LogoutCert(k, op, env, o);
    if env.found {
      var select := Select(SessionIs(op.session, o.session));
      Prepend(k, Put(DeleteSession(op.session)), Done, Done, After(k, select, FRESH_CERT), end);
      Prepend(k, select, Do(Put(DeleteSession(op.session)), Done), Done, FRESH_CERT, end);
    }
  }

  /** A fresh session whose account has been locked a second time. */
  function OwnerCert(k: Keys, h: Hash, o: Oracle, c: Cert): Cert {
    ActiveCert(k, o.session.account, o.account, FreshCert(k, h, o, c))
  }

  function AddPasskeyCert(k: Keys, op: Op, o: Oracle): Cert
    requires op.AddPasskey?
  {
    var a := o.session.account;
    var c1 := After(k, Check(PasskeysBelow(a, MAX_CREDENTIALS_PER_ACCOUNT)), OwnerCert(k, op.session, o, FRESH_CERT));
    After(k, Put(InsertPasskey(op.id, PasskeyRow(a, op.credential))), c1)
  }

  function AddPasskeyTail(op: Op, o: Oracle): Plan
    requires op.AddPasskey?
  {
    var a := o.session.account;
    Do(Require(o.account.handle == op.ownHandle),
    Do(Check(PasskeysBelow(a, MAX_CREDENTIALS_PER_ACCOUNT)),
    Do(Put(InsertPasskey(op.id, PasskeyRow(a, op.credential))), Done)))
  }

  lemma OwnerHolds(k: Keys, h: Hash, o: Oracle, c: Cert)
    ensures AccountLock(o.session.account) in FreshCert(k, h, o, c).held
    ensures AccountLock(o.session.account) in OwnerCert(k, h, o, c).held && c.held <= OwnerCert(k, h, o, c).held
  {}

  lemma AddPasskeyTailLeads(k: Keys, op: Op, o: Oracle)
    requires op.AddPasskey?
    ensures Leads(k, AddPasskeyTail(op, o), Done, OwnerCert(k, op.session, o, FRESH_CERT), AddPasskeyCert(k, op, o))
  {
    var end := AddPasskeyCert(k, op, o);
    var a := o.session.account;
    var c2 := OwnerCert(k, op.session, o, FRESH_CERT);
    var count := Check(PasskeysBelow(a, MAX_CREDENTIALS_PER_ACCOUNT));
    var insert := Put(InsertPasskey(op.id, PasskeyRow(a, op.credential)));
    OwnerHolds(k, op.session, o, FRESH_CERT);
    Prepend(k, insert, Done, Done, After(k, count, c2), end);
    Prepend(k, count, Do(insert, Done), Done, c2, end);
    Prepend(k, Require(o.account.handle == op.ownHandle), Do(count, Do(insert, Done)), Done, c2, end);
  }

  lemma AddPasskeyLawful(k: Keys, op: Op, env: Env, o: Oracle)
    requires op.AddPasskey?
    ensures Leads(k, AddPasskeyPlan(op, env, o), Done, FRESH_CERT, AddPasskeyCert(k, op, o))
  {
    var end := AddPasskeyCert(k, op, o);
    var a := o.session.account;
    var c1 := FreshCert(k, op.session, o, FRESH_CERT);
    OwnerHolds(k, op.session, o, FRESH_CERT);
    AddPasskeyTailLeads(k, op, o);
    var p4 := AddPasskeyTail(op, o);
    ActiveLeads(k, a, o.account, p4, c1);
    var p3 := LockActive(a, o.account, p4);
    FreshLeads(k, op.session, o, env, p3, FRESH_CERT);
    var p2 := LockFresh(op.session, o, env, p3);
    Prepend(k, Peek(CredentialFree(op.id)), p2, Done, FRESH_CERT, end);
    Prepend(k, Require(op.credential.Acceptable()), Do(Peek(CredentialFree(op.id)), p2), Done, FRESH_CERT, end);
  }

  function LinkWalletCert(k: Keys, op: Op, o: Oracle): Cert
    requires op.LinkWallet?
  {
    var a := o.session.account;
    var c1 := OwnerCert(k, op.session, o, After(k, AdviseWallet(op.address), FRESH_CERT));
    var c2 := After(k, Select(WalletIs(op.address, None)), c1);
    After(k, Put(InsertWallet(op.address, a)), After(k, Check(WalletsBelow(a, MAX_WALLETS_PER_ACCOUNT)), c2))
  }

  function LinkWalletTail(op: Op, o: Oracle): Plan
    requires op.LinkWallet?
  {
    var a := o.session.account;
    Do(Select(WalletIs(op.address, None)),
    Do(Check(WalletsBelow(a, MAX_WALLETS_PER_ACCOUNT)),
    Do(Put(InsertWallet(op.address, a)), Done)))
  }

  lemma LinkWalletTailLeads(k: Keys, op: Op, o: Oracle)
    requires op.LinkWallet?
    ensures Leads(k, LinkWalletTail(op, o), Done, OwnerCert(k, op.session, o, After(k, AdviseWallet(op.address), FRESH_CERT)),
                  LinkWalletCert(k, op, o))
  {
    var end := LinkWalletCert(k, op, o);
    var a := o.session.account;
    var c0 := After(k, AdviseWallet(op.address), FRESH_CERT);
    var c2 := OwnerCert(k, op.session, o, c0);
    var select := Select(WalletIs(op.address, None));
    var count := Check(WalletsBelow(a, MAX_WALLETS_PER_ACCOUNT));
    var insert := Put(InsertWallet(op.address, a));
    OwnerHolds(k, op.session, o, c0);
    assert Advisory(k.wallet(op.address)) in c0.held;
    var c3 := After(k, select, c2);
    Prepend(k, insert, Done, Done, After(k, count, c3), end);
    Prepend(k, count, Do(insert, Done), Done, c3, end);
    Prepend(k, select, Do(count, Do(insert, Done)), Done, c2, end);
  }

  lemma LinkWalletLawful(k: Keys, op: Op, env: Env, o: Oracle)
    requires op.LinkWallet?
    ensures Leads(k, LinkWalletPlan(op, env, o), Done, FRESH_CERT, LinkWalletCert(k, op, o))
  {
    var end := LinkWalletCert(k, op, o);
    var a := o.session.account;
    var c0 := After(k, AdviseWallet(op.address), FRESH_CERT);
    var c1 := FreshCert(k, op.session, o, c0);
    OwnerHolds(k, op.session, o, c0);
    LinkWalletTailLeads(k, op, o);
    var p3 := LinkWalletTail(op, o);
    ActiveLeads(k, a, o.account, p3, c1);
    var p2 := LockActive(a, o.account, p3);
    FreshLeads(k, op.session, o, env, p2, c0);
    Prepend(k, AdviseWallet(op.address), LockFresh(op.session, o, env, p2), Done, FRESH_CERT, end);
  }

  function ReplaceCert(k: Keys, op: Op, o: Oracle): Cert
    requires op.ReplaceRecoveryCodes?
  {
    var a := o.session.account;
    var c1 := CodesCert(k, a, o.codeKeys, OwnerCert(k, op.session, o, FRESH_CERT));
    InsertedCert(a, op.codes, SweepCert(k, Codes, a, o.codeKeys, c1))
  }

  function ReplaceTail(op: Op, o: Oracle): Plan
    requires op.ReplaceRecoveryCodes?
  {
    var a := o.session.account;
    LockCodes(a, o.codeKeys, Sweep(Codes, a, o.codeKeys, InsertCodes(a, op.codes, Done)))
  }

  lemma ReplaceTailLeads(k: Keys, op: Op, o: Oracle)
    requires op.ReplaceRecoveryCodes?
    ensures Leads(k, ReplaceTail(op, o), Done, OwnerCert(k, op.session, o, FRESH_CERT), ReplaceCert(k, op, o))
  {
    var a := o.session.account;
    var c2 := OwnerCert(k, op.session, o, FRESH_CERT);
    var c3 := CodesCert(k, a, o.codeKeys, c2);
    OwnerHolds(k, op.session, o, FRESH_CERT);
    CodesGrow(k, a, o.codeKeys, c2);
    InsertCodesLeads(k, a, op.codes, Done, SweepCert(k, Codes, a, o.codeKeys, c3));
    var p5 := InsertCodes(a, op.codes, Done);
    SweepLeads(k, Codes, a, o.codeKeys, p5, c3);
    LockCodesLeads(k, a, o.codeKeys, Sweep(Codes, a, o.codeKeys, p5), c2);
  }

  lemma ReplaceLawful(k: Keys, op: Op, env: Env, o: Oracle)
    requires op.ReplaceRecoveryCodes?
    ensures Leads(k, ReplacePlan(op, env, o), Done, FRESH_CERT, ReplaceCert(k, op, o))
    ensures Passes(ReplacePlan(op, env, o)) ==>
      |op.codes| == REQUIRED_RECOVERY_CODES && Distinct(op.codes) && !o.session.via.ByRecovery?
  {
    var end := ReplaceCert(k, op, o);
    var a := o.session.account;
    var c1 := FreshCert(k, op.session, o, FRESH_CERT);
    OwnerHolds(k, op.session, o, FRESH_CERT);
    ReplaceTailLeads(k, op, o);
    var p3 := ReplaceTail(op, o);
    ActiveLeads(k, a, o.account, p3, c1);
    var p2 := LockActive(a, o.account, p3);
    var gate := Require(!o.session.via.ByRecovery?);
    Prepend(k, gate, p2, Done, c1, end);
    FreshLeads(k, op.session, o, env, Do(gate, p2), FRESH_CERT);
    var p1 := LockFresh(op.session, o, env, Do(gate, p2));
    Prepend(k, Require(|op.codes| == REQUIRED_RECOVERY_CODES && Distinct(op.codes)), p1, Done, FRESH_CERT, end);
    assert Passes(ReplacePlan(op, env, o)) ==> Passes(p1) && Passes(Do(gate, p2));
  }

  /** After the presented code has been deleted. */
  function CodeTakenCert(k: Keys, op: Op, o: Oracle): Cert
    requires op.RedeemRecoveryCode?
  {
    var c1 := ActiveCert(k, o.codeAccount, o.account, HashCert(k, op.session, FRESH_CERT));
    After(k, Put(DeleteCode(op.code)), After(k, Select(CodeIs(op.code, o.codeAccount)), c1))
  }

  function SessionsSweptCert(k: Keys, op: Op, o: Oracle): Cert
    requires op.RedeemRecoveryCode?
  {
    SweepCert(k, Sessions, o.codeAccount, o.sessionKeys,
      SessionsCert(k, o.codeAccount, o.sessionKeys, o.sessionRows, CodeTakenCert(k, op, o)))
  }

  function RedeemCert(k: Keys, op: Op, env: Env, o: Oracle): Cert
    requires op.RedeemRecoveryCode?
  {
    var a := o.codeAccount;
    var c := SweepCert(k, Challenges, a, o.challengeKeys,
      ChallengesCert(k, a, o.challengeKeys, o.challengeRows, SessionsSweptCert(k, op, o)));
    After(k, Put(InsertSession(op.session, NewSession(a, ByRecovery, env))), c)
  }

  function RedeemTail(op: Op, env: Env, o: Oracle): Plan
    requires op.RedeemRecoveryCode?
  {
    var a := o.codeAccount;
    LockSessions(a, o.sessionKeys, o.sessionRows, Sweep(Sessions, a, o.sessionKeys, RedeemEnding(op, env, o)))
  }

  function RedeemEnding(op: Op, env: Env, o: Oracle): Plan
    requires op.RedeemRecoveryCode?
  {
    var a := o.codeAccount;
    LockChallenges(a, o.challengeKeys, o.challengeRows,
    Sweep(Challenges, a, o.challengeKeys,
    Do(Put(InsertSession(op.session, NewSession(a, ByRecovery, env))), Done)))
  }

  lemma CodeTakenHolds(k: Keys, op: Op, o: Oracle)
    requires op.RedeemRecoveryCode?
    ensures AccountLock(o.codeAccount) in CodeTakenCert(k, op, o).held
    ensures Advisory(k.hash(op.session)) in CodeTakenCert(k, op, o).held
  {
    assert Advisory(k.hash(op.session)) in HashCert(k, op.session, FRESH_CERT).held;
  }

  /** After the sessions are revoked: revoke the challenges, issue the session. */
  lemma RedeemEndingLeads(k: Keys, op: Op, env: Env, o: Oracle)
    requires op.RedeemRecoveryCode?
    ensures Leads(k, RedeemEnding(op, env, o), Done, SessionsSweptCert(k, op, o), RedeemCert(k, op, env, o))
  {
    var end := RedeemCert(k, op, env, o);
    var a := o.codeAccount;
    var c3 := SessionsSweptCert(k, op, o);
    var c4 := ChallengesCert(k, a, o.challengeKeys, o.challengeRows, c3);
    var c5 := SweepCert(k, Challenges, a, o.challengeKeys, c4);
    CodeTakenHolds(k, op, o);
    SessionsGrow(k, a, o.sessionKeys, o.sessionRows, CodeTakenCert(k, op, o));
    ChallengesGrow(k, a, o.challengeKeys, o.challengeRows, c3);
    var session := Put(InsertSession(op.session, NewSession(a, ByRecovery, env)));
    Prepend(k, session, Done, Done, c5, end);
    if forall x :: x in o.challengeKeys ==> x in o.challengeRows {
      SweepLeads(k, Challenges, a, o.challengeKeys, Do(session, Done), c4);
    }
    LockChallengesLeads(k, a, o.challengeKeys, o.challengeRows, Sweep(Challenges, a, o.challengeKeys, Do(session, Done)), c3);
  }

  /** Everything after the code is deleted: revoke sessions and challenges, issue the session. */
  lemma RedeemTailLeads(k: Keys, op: Op, env: Env, o: Oracle, rest: Plan)
    requires op.RedeemRecoveryCode?
    requires rest == RedeemTail(op, env, o)
    ensures Leads(k, rest, Done, CodeTakenCert(k, op, o), RedeemCert(k, op, env, o))
  {
    var end := RedeemCert(k, op, env, o);
    var a := o.codeAccount;
    var c1 := CodeTakenCert(k, op, o);
    var c2 := SessionsCert(k, a, o.sessionKeys, o.sessionRows, c1);
    CodeTakenHolds(k, op, o);
    SessionsGrow(k, a, o.sessionKeys, o.sessionRows, c1);
    RedeemEndingLeads(k, op, env, o);
    var p3 := RedeemEnding(op, env, o);
    if forall x :: x in o.sessionKeys ==> x in o.sessionRows {
      SweepLeads(k, Sessions, a, o.sessionKeys, p3, c2);
    }
    LockSessionsLeads(k, a, o.sessionKeys, o.sessionRows, Sweep(Sessions, a, o.sessionKeys, p3), c1);
  }

  /** From the locking of the code on. */
  lemma CodeTaken(k: Keys, op: Op, env: Env, o: Oracle, tail: Plan)
    requires op.RedeemRecoveryCode? && tail == RedeemTail(op, env, o)
    ensures Leads(k, Do(Select(CodeIs(op.code, o.codeAccount)), Do(Put(DeleteCode(op.code)), tail)), Done,
                  ActiveCert(k, o.codeAccount, o.account, HashCert(k, op.session, FRESH_CERT)), RedeemCert(k, op, env, o))
  {
    var end := RedeemCert(k, op, env, o);
    var a := o.codeAccount;
    var c2 := ActiveCert(k, a, o.account, HashCert(k, op.session, FRESH_CERT));
    assert AccountLock(a) in c2.held;
    var select := Select(CodeIs(op.code, a));
    var delete := Put(DeleteCode(op.code));
    CodeDeleted(k, op, env, o, tail);
    Prepend(k, select, Do(delete, tail), Done, c2, end);
  }

  lemma CodeDeleted(k: Keys, op: Op, env: Env, o: Oracle, tail: Plan)
    requires op.RedeemRecoveryCode? && tail == RedeemTail(op, env, o)
    ensures var a := o.codeAccount;
      Leads(k, Do(Put(DeleteCode(op.code)), tail), Done,
            After(k, Select(CodeIs(op.code, a)), ActiveCert(k, a, o.account, HashCert(k, op.session, FRESH_CERT))),
            RedeemCert(k, op, env, o))
  {
    var a := o.codeAccount;
    var c3 := After(k, Select(CodeIs(op.code, a)), ActiveCert(k, a, o.account, HashCert(k, op.session, FRESH_CERT)));
    RedeemTailLeads(k, op, env, o, tail);
    CodeRowHeld(k, op, o);
    Prepend(k, Put(DeleteCode(op.code)), tail, Done, c3, RedeemCert(k, op, env, o));
  }

  lemma CodeRowHeld(k: Keys, op: Op, o: Oracle)
    requires op.RedeemRecoveryCode?
    ensures var a := o.codeAccount;
      var c3 := After(k, Select(CodeIs(op.code, a)), ActiveCert(k, a, o.account, HashCert(k, op.session, FRESH_CERT)));
      RowLock(Codes, op.code) in c3.held && After(k, Put(DeleteCode(op.code)), c3) == CodeTakenCert(k, op, o)
  {}

  /** From the discovery of the code's account on. */
  lemma RedeemBodyLeads(k: Keys, op: Op, env: Env, o: Oracle, tail: Plan)
    requires op.RedeemRecoveryCode? && tail == RedeemTail(op, env, o)
    ensures var a := o.codeAccount; var body := LockActive(a, o.account, Do(Select(CodeIs(op.code, a)), Do(Put(DeleteCode(op.code)), tail)));
      && Leads(k, Do(Peek(CodeIs(op.code, a)), body), Done, HashCert(k, op.session, FRESH_CERT), RedeemCert(k, op, env, o))
      && (Passes(body) ==> o.account.status.Active?)
  {
    var end := RedeemCert(k, op, env, o);
    var a := o.codeAccount;
    var c1 := HashCert(k, op.session, FRESH_CERT);
    var select := Select(CodeIs(op.code, a));
    var delete := Put(DeleteCode(op.code));
    CodeTaken(k, op, env, o, tail);
    ActiveLeads(k, a, o.account, Do(select, Do(delete, tail)), c1);
    Prepend(k, Peek(CodeIs(op.code, a)), LockActive(a, o.account, Do(select, Do(delete, tail))), Done, c1, end);
  }

  lemma RedeemLawful(k: Keys, op: Op, env: Env, o: Oracle)
    requires op.RedeemRecoveryCode?
    ensures Leads(k, RedeemPlan(op, env, o), Done, FRESH_CERT, RedeemCert(k, op, env, o))
    ensures Passes(RedeemPlan(op, env, o)) ==> op.code != op.session && o.account.status.Active?
  {
    var end := RedeemCert(k, op, env, o);
    var a := o.codeAccount;
    var tail := RedeemTail(op, env, o);
    RedeemBodyLeads(k, op, env, o, tail);
    var p3 := LockActive(a, o.account, Do(Select(CodeIs(op.code, a)), Do(Put(DeleteCode(op.code)), tail)));
    var p2 := Do(Peek(CodeIs(op.code, a)), p3);
    HashLeads(k, op.session, p2, FRESH_CERT);
    Prepend(k, Require(op.code != op.session), AssertHashUnused(op.session, p2), Done, FRESH_CERT, end);
    assert Passes(p2) ==> Passes(p3);
  }

  /** What a transaction has established when its last statement is done. */
  function EndCert(k: Keys, op: Op, env: Env, o: Oracle): Cert {
    match op
    case IssueChallenge(_, _, _, _, _, _, _) => IssueCert(k, op, env, o)
    case ConsumeChallenge(_, _, _, _) => ConsumeCert(k, op, o)
    case CreatePasskeyAccount(_, _, _, _, _) => CreateCert(k, op, env, o)
    case LoginPasskey(_, _, _, _, _, _, _) => LoginPasskeyCert(k, op, env, o)
    case LoginWallet(_, _, _) => LoginWalletCert(k, op, env, o)
    case Logout(_) => LogoutCert(k, op, env, o)
    case AddPasskey(_, _, _, _) => AddPasskeyCert(k, op, o)
    case LinkWallet(_, _) => LinkWalletCert(k, op, o)
    case ReplaceRecoveryCodes(_, _) => ReplaceCert(k, op, o)
    case RedeemRecoveryCode(_, _) => RedeemCert(k, op, env, o)
    case Purge(_, _) => FRESH_CERT
  }

  /** Every transaction of the repository is disciplined from start to finish. */
  lemma EveryPlanIsLawful(k: Keys, op: Op, env: Env, o: Oracle)
    ensures Disciplined(k, PlanOf(op, env, o), FRESH_CERT)
    ensures Passes(PlanOf(op, env, o)) ==> Final(k, PlanOf(op, env, o), FRESH_CERT) == EndCert(k, op, env, o)
  {
    match op
    case IssueChallenge(_, _, _, _, _, _, _) => IssueLawful(k, op, env, o);
    case ConsumeChallenge(_, _, _, _) => ConsumeLawful(k, op, env, o);
    case CreatePasskeyAccount(_, _, _, _, _) => CreateLawful(k, op, env, o);
    case LoginPasskey(_, _, _, _, _, _, _) => LoginPasskeyLawful(k, op, env, o);
    case LoginWallet(_, _, _) => LoginWalletLawful(k, op, env, o);
    case Logout(_) => LogoutLawful(k, op, env, o);
    case AddPasskey(_, _, _, _) => AddPasskeyLawful(k, op, env, o);
    case LinkWallet(_, _) => LinkWalletLawful(k, op, env, o);
    case ReplaceRecoveryCodes(_, _) => ReplaceLawful(k, op, env, o);
    case RedeemRecoveryCode(_, _) => RedeemLawful(k, op, env, o);
    case Purge(_, _) =>
  }
}
