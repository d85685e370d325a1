/**
 * Which advisory locks a transaction asks for: only those of its own operation's hash and address,
 * and while it still has one to ask for it holds nothing but its own hash lock.
 */
module AuthOwnLocks {
  import opened Prelude
  import opened AuthTables
  import opened AuthSpec
  import opened AuthLocking
  import opened AuthPlans
  import opened AuthInterleaving

  /** The hash an operation takes the advisory lock of. */
  function OwnHash(op: Op): Option<Hash> {
    match op
    case IssueChallenge(hash, _, _, _, _, _, _) => Some(hash)
    case CreatePasskeyAccount(_, _, _, session, _) => Some(session)
    case LoginPasskey(_, _, _, _, _, session, _) => Some(session)
    case LoginWallet(_, session, _) => Some(session)
    case RedeemRecoveryCode(_, session) => Some(session)
    case _ => None
  }

  /** The wallet address an operation takes the advisory lock of. */
  function OwnAddress(op: Op): Option<Address> {
    match op
    case LoginWallet(address, _, _) => Some(address)
    case LinkWallet(_, address) => Some(address)
    case _ => None
  }

  /** An advisory lock is still to be asked for. */
  predicate Advises(p: Plan) {
    p.Do? && (p.action.AdviseHash? || p.action.AdviseWallet? || Advises(p.rest))
  }

  /** Advisory locks are the operation's own, and before the last of them no lock but its hash lock is taken. */
  predicate Early(op: Op, p: Plan) {
    p.Do? ==>
      && (p.action.AdviseHash? ==> OwnHash(op) == Some(p.action.hash))
      && (p.action.AdviseWallet? ==> OwnAddress(op) == Some(p.action.address))
      && (Advises(p.rest) ==> p.action.AdviseHash? || (!p.action.AdviseWallet? && !p.action.LockAccountRow? && !p.action.Select?))
      && Early(op, p.rest)
  }

  lemma {:induction false} LateIsEarly(op: Op, p: Plan)
    requires !Advises(p)
    ensures Early(op, p)
  {
    if p.Do? { LateIsEarly(op, p.rest); }
  }

  // ---- No block after the advisory locks asks for another. ----

  lemma Plain(a: Action, rest: Plan)
    requires !a.AdviseHash? && !a.AdviseWallet?
    ensures Advises(Do(a, rest)) <==> Advises(rest)
  {}

  lemma FreshAdvises(h: Hash, o: Oracle, env: Env, rest: Plan)
    ensures Advises(LockFresh(h, o, env, rest)) <==> Advises(rest)
  {
    var p7 := Do(Require(FreshInMillis(o.session, env.jsClock)), rest);
    var p6 := Do(ReadClock(env.jsClock), p7);
    var p5 := Do(Select(SessionIs(h, o.session)), p6);
    var p4 := Do(Require(FreshInSql(o.session, env.sqlClock)), p5);
    var p3 := Do(ReadClock(env.sqlClock), p4);
    ActiveAdvises(o.session.account, o.account, p3);
    assert Advises(p3) == Advises(p4) == Advises(p5) == Advises(p6) == Advises(p7) == Advises(rest);
  }

  lemma ActiveAdvises(a: AccountId, row: AccountRow, rest: Plan)
    ensures Advises(LockActive(a, row, rest)) <==> Advises(rest)
  {
    assert Advises(Do(Check(AccountIs(a, row)), Do(Require(row.status.Active?), rest))) == Advises(rest);
  }

  lemma SortedAdvises(a: Option<AccountId>, b: Option<AccountId>, rest: Plan)
    ensures Advises(LockSorted(a, b, rest)) <==> Advises(rest)
  {
    if a.Some? && b.Some? {
      assert Advises(Do(LockAccountRow(a.value), rest)) == Advises(Do(LockAccountRow(b.value), rest)) == Advises(rest);
    }
  }

  lemma DiscoverAdvises(previous: Option<Hash>, env: Env, rest: Plan)
    ensures Advises(Discover(previous, env, rest)) <==> Advises(rest)
  {}

  lemma RevokeAdvises(previous: Option<Hash>, o: Oracle, env: Env, rest: Plan)
    ensures Advises(Revoke(previous, o, env, rest)) <==> Advises(rest)
  {
    if previous.Some? { assert Advises(Do(Put(DeleteSession(previous.value)), rest)) == Advises(rest); }
  }

  lemma SweepAdvises(t: Table, a: AccountId, keys: seq<Hash>, rest: Plan)
    ensures Advises(Sweep(t, a, keys, rest)) <==> Advises(rest)
  {
    assert Advises(Do(Put(DeleteAllOf(t, a, KeySet(keys))), rest)) == Advises(rest);
  }

  lemma {:induction false} SessionsAdvise(a: AccountId, keys: seq<Hash>, rows: map<Hash, SessionRow>, rest: Plan)
    requires !Advises(rest)
    ensures !Advises(LockSessions(a, keys, rows, rest))
    decreases |keys|
  {
    if keys != [] && keys[0] in rows {
      SessionsAdvise(a, keys[1..], rows, rest);
      assert !Advises(Do(Select(SessionIs(keys[0], rows[keys[0]])), LockSessions(a, keys[1..], rows, rest)));
    }
  }

  lemma {:induction false} ChallengesAdvise(a: AccountId, keys: seq<Hash>, rows: map<Hash, ChallengeRow>, rest: Plan)
    requires !Advises(rest)
    ensures !Advises(LockChallenges(a, keys, rows, rest))
    decreases |keys|
  {
    if keys != [] && keys[0] in rows {
      ChallengesAdvise(a, keys[1..], rows, rest);
      assert !Advises(Do(Select(ChallengeIs(keys[0], rows[keys[0]])), LockChallenges(a, keys[1..], rows, rest)));
    }
  }

  lemma {:induction false} CodesAdvise(a: AccountId, keys: seq<Hash>, rest: Plan)
    requires !Advises(rest)
    ensures !Advises(LockCodes(a, keys, rest))
    decreases |keys|
  {
    if keys != [] { CodesAdvise(a, keys[1..], rest); }
  }

  lemma {:induction false} InsertsAdvise(a: AccountId, codes: seq<Hash>, rest: Plan)
    requires !Advises(rest)
    ensures !Advises(InsertCodes(a, codes, rest))
    decreases |codes|
  {
    if codes != [] { InsertsAdvise(a, codes[1..], rest); }
  }

  /** The hash lock in front of a plan that asks for no other advisory lock. */
  lemma HashEarly(op: Op, h: Hash, rest: Plan)
    requires OwnHash(op) == Some(h) && Early(op, rest)
    ensures Early(op, AssertHashUnused(h, rest))
  {
    assert Early(op, Do(Check(HashFree(h)), rest));
  }

  // ---- Plan by plan. ----

  lemma IssueEarly(op: Op, env: Env, o: Oracle)
    requires op.IssueChallenge?
    ensures Early(op, IssuePlan(op, env, o))
  {
    var bare := Do(Put(InsertChallenge(op.hash, IssuedRow(op, env, None))), Done);
    var last := Do(Put(InsertChallenge(op.hash, IssuedRow(op, env, Some(o.session.account)))), Done);
    var gated := Do(Require(op.kind.NeedsHandle() ==> Some(o.account.handle) == op.handle), last);
    var tail := if op.viaSession.None? then bare else LockFresh(op.viaSession.value, o, env, gated);
    Plain(bare.action, Done);
    Plain(last.action, Done);
    Plain(gated.action, last);
    if op.viaSession.Some? { FreshAdvises(op.viaSession.value, o, env, gated); }
    LateIsEarly(op, tail);
    HashEarly(op, op.hash, tail);
  }

  lemma ConsumeEarly(op: Op, env: Env, o: Oracle)
    requires op.ConsumeChallenge?
    ensures Early(op, ConsumePlan(op, env, o))
  {
    TakeAdvises(op, env, o, None);
    TakeAdvises(op, env, o, Some(o.session.account));
    if op.viaSession.Some? { FreshAdvises(op.viaSession.value, o, env, TakeChallenge(op, env, o, Some(o.session.account))); }
    LateIsEarly(op, ConsumePlan(op, env, o));
  }

  lemma TakeAdvises(op: Op, env: Env, o: Oracle, bound: Option<AccountId>)
    requires op.ConsumeChallenge?
    ensures !Advises(TakeChallenge(op, env, o, bound))
  {
    var select := Do(Select(ChallengeIs(op.hash, o.challenge)), Do(Put(DeleteChallenge(op.hash)), Done));
    Plain(Put(DeleteChallenge(op.hash)), Done);
    Plain(Select(ChallengeIs(op.hash, o.challenge)), Do(Put(DeleteChallenge(op.hash)), Done));
    Plain(Require(Matches(o.challenge, op, bound, env.deleteClock)), select);
  }

  lemma CreateEarly(op: Op, env: Env, o: Oracle)
    requires op.CreatePasskeyAccount?
    ensures Early(op, CreatePlan(op, env, o))
  {
    var session := Do(Put(InsertSession(op.session, NewSession(env.freshAccount, ByPasskey, env))), Done);
    var revoke := Revoke(op.previous, o, env, session);
    var passkey := Do(Put(InsertPasskey(op.id, PasskeyRow(env.freshAccount, op.credential))), revoke);
    var account := Do(Put(InsertAccount(env.freshAccount, AccountRow(op.newHandle, Active))), passkey);
    var locked := LockSorted(None, PreviousAccount(op.previous, env), account);
    var found := Discover(op.previous, env, locked);
    var free := Do(Peek(CredentialFree(op.id)), found);
    RevokeAdvises(op.previous, o, env, session);
    SortedAdvises(None, PreviousAccount(op.previous, env), account);
    DiscoverAdvises(op.previous, env, locked);
    Plain(session.action, Done);
    Plain(passkey.action, revoke);
    Plain(account.action, passkey);
    Plain(free.action, found);
    var tail := Do(Peek(HandleFree(op.newHandle)), free);
    Plain(tail.action, free);
    LateIsEarly(op, tail);
    HashEarly(op, op.session, tail);
  }

  lemma LoginPasskeyEarly(op: Op, env: Env, o: Oracle)
    requires op.LoginPasskey?
    ensures Early(op, LoginPasskeyPlan(op, env, o))
  {
    var session := Do(Put(InsertSession(op.session, NewSession(op.account, ByPasskey, env))), Done);
    var update := Do(Put(UpdatePasskey(op.id, op.newCounter, op.backedUp)), session);
    var select := Do(Select(PasskeyIs(op.id, o.passkey)), update);
    var same := Do(Require(SameSnapshot(o.passkey, op)), select);
    var revoke := Revoke(op.previous, o, env, same);
    var active := Do(Require(o.account.status.Active?), revoke);
    var check := Do(Check(AccountIs(op.account, o.account)), active);
    var locked := LockSorted(Some(op.account), PreviousAccount(op.previous, env), check);
    var found := Discover(op.previous, env, locked);
    RevokeAdvises(op.previous, o, env, same);
    SortedAdvises(Some(op.account), PreviousAccount(op.previous, env), check);
    DiscoverAdvises(op.previous, env, locked);
    Plain(session.action, Done);
    Plain(update.action, session);
    Plain(select.action, update);
    Plain(same.action, select);
    Plain(active.action, revoke);
    Plain(check.action, active);
    var tail := Do(Peek(PasskeyOwnerIs(op.id, op.account)), found);
    Plain(tail.action, found);
    LateIsEarly(op, tail);
    HashEarly(op, op.session, tail);
  }

  lemma WalletTailAdvises(op: Op, env: Env, o: Oracle)
    requires op.LoginWallet?
    ensures !Advises(WalletTail(op, env, o))
  {
    match o.owner
    case Some(a) =>
      var session := Do(Put(InsertSession(op.session, NewSession(a, ByWallet, env))), Done);
      RevokeAdvises(op.previous, o, env, session);
      var active := Do(Require(o.account.status.Active?), Revoke(op.previous, o, env, session));
      Plain(session.action, Done);
      Plain(active.action, active.rest);
      Plain(Check(AccountIs(a, o.account)), active);
    case None =>
      var session := Do(Put(InsertSession(op.session, NewSession(env.freshAccount, ByWallet, env))), Done);
      RevokeAdvises(op.previous, o, env, session);
      var wallet := Do(Put(InsertWallet(op.address, env.freshAccount)), Revoke(op.previous, o, env, session));
      Plain(session.action, Done);
      Plain(wallet.action, wallet.rest);
      Plain(NewWalletPlan(op, env, o).action, wallet);
      if PreviousAccount(op.previous, env).Some? {
        ActiveAdvises(PreviousAccount(op.previous, env).value, o.account, NewWalletPlan(op, env, o));
      }
  }

  lemma LoginWalletEarly(op: Op, env: Env, o: Oracle)
    requires op.LoginWallet?
    ensures Early(op, LoginWalletPlan(op, env, o))
  {
    var locked := LockSorted(o.owner, PreviousAccount(op.previous, env), WalletTail(op, env, o));
    var found := Discover(op.previous, env, locked);
    WalletTailAdvises(op, env, o);
    SortedAdvises(o.owner, PreviousAccount(op.previous, env), WalletTail(op, env, o));
    DiscoverAdvises(op.previous, env, locked);
    var tail := Do(Check(WalletIs(op.address, o.owner)), found);
    Plain(tail.action, found);
    LateIsEarly(op, tail);
    HashEarly(op, op.session, Do(AdviseWallet(op.address), tail));
  }

  lemma AddPasskeyEarly(op: Op, env: Env, o: Oracle)
    requires op.AddPasskey?
    ensures Early(op, AddPasskeyPlan(op, env, o))
  {
    var a := o.session.account;
    var insert := Do(Put(InsertPasskey(op.id, PasskeyRow(a, op.credential))), Done);
    var count := Do(Check(PasskeysBelow(a, MAX_CREDENTIALS_PER_ACCOUNT)), insert);
    var gated := Do(Require(o.account.handle == op.ownHandle), count);
    ActiveAdvises(a, o.account, gated);
    FreshAdvises(op.session, o, env, LockActive(a, o.account, gated));
    Plain(insert.action, Done);
    Plain(count.action, insert);
    Plain(gated.action, count);
    Plain(Peek(CredentialFree(op.id)), LockFresh(op.session, o, env, LockActive(a, o.account, gated)));
    LateIsEarly(op, AddPasskeyPlan(op, env, o));
  }

  lemma LinkWalletEarly(op: Op, env: Env, o: Oracle)
    requires op.LinkWallet?
    ensures Early(op, LinkWalletPlan(op, env, o))
  {
    var a := o.session.account;
    var insert := Do(Put(InsertWallet(op.address, a)), Done);
    var count := Do(Check(WalletsBelow(a, MAX_WALLETS_PER_ACCOUNT)), insert);
    var select := Do(Select(WalletIs(op.address, None)), count);
    ActiveAdvises(a, o.account, select);
    FreshAdvises(op.session, o, env, LockActive(a, o.account, select));
    Plain(insert.action, Done);
    Plain(count.action, insert);
    Plain(select.action, count);
    LateIsEarly(op, LockFresh(op.session, o, env, LockActive(a, o.account, select)));
  }

  lemma ReplaceEarly(op: Op, env: Env, o: Oracle)
    requires op.ReplaceRecoveryCodes?
    ensures Early(op, ReplacePlan(op, env, o))
  {
    var a := o.session.account;
    var inserts := InsertCodes(a, op.codes, Done);
    InsertsAdvise(a, op.codes, Done);
    SweepAdvises(Codes, a, o.codeKeys, inserts);
    var swept := Sweep(Codes, a, o.codeKeys, inserts);
    CodesAdvise(a, o.codeKeys, swept);
    var locked := LockActive(a, o.account, LockCodes(a, o.codeKeys, swept));
    ActiveAdvises(a, o.account, LockCodes(a, o.codeKeys, swept));
    var gated := Do(Require(!o.session.via.ByRecovery?), locked);
    FreshAdvises(op.session, o, env, gated);
    LateIsEarly(op, ReplacePlan(op, env, o));
  }

  lemma RedeemEarly(op: Op, env: Env, o: Oracle)
    requires op.RedeemRecoveryCode?
    ensures Early(op, RedeemPlan(op, env, o))
  {
    var a := o.codeAccount;
    var session := Do(Put(InsertSession(op.session, NewSession(a, ByRecovery, env))), Done);
    Plain(session.action, Done);
    SweepAdvises(Challenges, a, o.challengeKeys, session);
    var challenges := Sweep(Challenges, a, o.challengeKeys, session);
    ChallengesAdvise(a, o.challengeKeys, o.challengeRows, challenges);
    var locked := LockChallenges(a, o.challengeKeys, o.challengeRows, challenges);
    SweepAdvises(Sessions, a, o.sessionKeys, locked);
    var sessions := Sweep(Sessions, a, o.sessionKeys, locked);
    SessionsAdvise(a, o.sessionKeys, o.sessionRows, sessions);
    var delete := Do(Put(DeleteCode(op.code)), LockSessions(a, o.sessionKeys, o.sessionRows, sessions));
    var select := Do(Select(CodeIs(op.code, a)), delete);
    Plain(delete.action, delete.rest);
    Plain(select.action, delete);
    ActiveAdvises(a, o.account, select);
    var tail := Do(Peek(CodeIs(op.code, a)), LockActive(a, o.account, select));
    LateIsEarly(op, tail);
    HashEarly(op, op.session, tail);
  }

  lemma LogoutEarly(op: Op, env: Env, o: Oracle)
    requires op.Logout?
    ensures Early(op, LogoutPlan(op, env, o))
  {
    Plain(Put(DeleteSession(op.session)), Done);
    Plain(Select(SessionIs(op.session, o.session)), Do(Put(DeleteSession(op.session)), Done));
    LateIsEarly(op, LogoutPlan(op, env, o));
  }

  /** Every operation asks for the advisory locks of its own hash and address only, and for those first. */
  lemma EveryPlanIsEarly(op: Op, env: Env, o: Oracle)
    ensures Early(op, PlanOf(op, env, o))
  {
    match op
    case IssueChallenge(_, _, _, _, _, _, _) => IssueEarly(op, env, o);
    case ConsumeChallenge(_, _, _, _) => ConsumeEarly(op, env, o);
    case CreatePasskeyAccount(_, _, _, _, _) => CreateEarly(op, env, o);
    case LoginPasskey(_, _, _, _, _, _, _) => LoginPasskeyEarly(op, env, o);
    case LoginWallet(_, _, _) => LoginWalletEarly(op, env, o);
    case Logout(_) => LogoutEarly(op, env, o);
    case AddPasskey(_, _, _, _) => AddPasskeyEarly(op, env, o);
    case LinkWallet(_, _) => LinkWalletEarly(op, env, o);
    case ReplaceRecoveryCodes(_, _) => ReplaceEarly(op, env, o);
    case RedeemRecoveryCode(_, _) => RedeemEarly(op, env, o);
    case Purge(_, _) => LateIsEarly(op, PlanOf(op, env, o));
  }

  // ---- Over runs. ----

  /** While an advisory lock is still to come, only the own hash lock may be held. */
  predicate OwnTx(k: Keys, tx: Tx) {
    && Early(tx.op, tx.todo)
    && (Advises(tx.todo) ==>
          forall l :: l in tx.cert.held ==> OwnHash(tx.op).Some? && l == Advisory(k.hash(OwnHash(tx.op).value)))
  }

  ghost predicate OwnLocks(k: Keys, s: State) { forall id :: id in s.txs ==> OwnTx(k, s.txs[id]) }

  lemma AdvanceOwn(k: Keys, tx: Tx)
    requires OwnTx(k, tx) && tx.todo.Do?
    ensures OwnTx(k, tx.(todo := tx.todo.rest, cert := After(k, tx.todo.action, tx.cert)))
  {}

  lemma NextOwn(k: Keys, s: State, step: Step)
    requires OwnLocks(k, s)
    ensures OwnLocks(k, Next(k, s, step))
  {
    match step
    case Begin(_, op, env, o) => EveryPlanIsEarly(op, env, o);
    case Advance(id) => if id in s.txs && s.txs[id].todo.Do? { AdvanceOwn(k, s.txs[id]); }
    case _ =>
  }

  /** In every reachable state each transaction's pending advisory locks are its own. */
  lemma {:induction false} RunOwn(k: Keys, s: State, steps: seq<Step>, t: State)
    requires OwnLocks(k, s) && RunsTo(k, s, steps, t)
    ensures OwnLocks(k, t)
    decreases |steps|
  {
    if steps != [] {
      NextOwn(k, s, steps[0]);
      RunOwn(k, Next(k, s, steps[0]), steps[1..], t);
    }
  }
}
