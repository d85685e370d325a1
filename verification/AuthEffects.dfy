/** What a committed operation does to each table, table by table. */
module AuthEffects {
  import opened Prelude
  import opened AuthTables
  import opened AuthSpec

  /** `after` is what the operation commits. */
  predicate Commits(db: Db, op: Op, env: Env, after: Db) {
    Exec(db, op, env).Ok? && Exec(db, op, env).value.db == after
  }

  predicate InsertsAccount(db: Db, a: AccountId, handle: Handle, after: Db) {
    a !in db.accounts && handle !in HandlesIn(db) && after.accounts == db.accounts[a := AccountRow(handle, Active)]
  }

  predicate AccountsAfter(db: Db, op: Op, env: Env, after: Db) {
    match op
    case CreatePasskeyAccount(handle, _, _, _, _) => InsertsAccount(db, env.freshAccount, handle, after)
    case LoginWallet(w, _, _) =>
      if w in db.wallets then after.accounts == db.accounts
      else InsertsAccount(db, env.freshAccount, env.freshHandle, after)
    case _ => after.accounts == db.accounts
  }

  predicate PasskeysAfter(db: Db, op: Op, env: Env, after: Db) {
    match op
    case CreatePasskeyAccount(_, id, credential, _, _) =>
      && id !in db.passkeys && credential.Acceptable()
      && after.passkeys == db.passkeys[id := PasskeyRow(env.freshAccount, credential)]
    case AddPasskey(session, id, credential, _) =>
      && id !in db.passkeys && credential.Acceptable() && session in db.sessions
      && db.sessions[session].account in db.accounts
      && |PasskeysOf(db, db.sessions[session].account)| < MAX_CREDENTIALS_PER_ACCOUNT
      && after.passkeys == db.passkeys[id := PasskeyRow(db.sessions[session].account, credential)]
    case LoginPasskey(account, id, expected, newCounter, backedUp, _, _) =>
      && id in db.passkeys && SameSnapshot(db.passkeys[id], op) && account in db.accounts
      && newCounter <= MAX_COUNTER && !(expected.device.SingleDevice? && backedUp)
      && CounterAdvances(expected.counter, newCounter)
      && after.passkeys == db.passkeys[id := Advanced(db.passkeys[id], newCounter, backedUp)]
    case _ => after.passkeys == db.passkeys
  }

  function Advanced(row: PasskeyRow, counter: nat, backedUp: bool): PasskeyRow {
    row.(credential := row.credential.(counter := counter, backedUp := backedUp))
  }

  predicate WalletsAfter(db: Db, op: Op, env: Env, after: Db) {
    match op
    case LoginWallet(w, _, _) =>
      if w in db.wallets then after.wallets == db.wallets
      else after.wallets == db.wallets[w := env.freshAccount]
    case LinkWallet(session, w) =>
      && w !in db.wallets && session in db.sessions && db.sessions[session].account in db.accounts
      && |WalletsOf(db, db.sessions[session].account)| < MAX_WALLETS_PER_ACCOUNT
      && after.wallets == db.wallets[w := db.sessions[session].account]
    case _ => after.wallets == db.wallets
  }

  function Revoked(db: Db, previous: Option<Hash>, account: Option<AccountId>): set<Hash> {
    if && previous.Some? && account.Some?
       && previous.value in db.sessions && db.sessions[previous.value].account == account.value
    then {previous.value} else {}
  }

  /** The sessions an operation ends. */
  function Ended(db: Db, op: Op, env: Env): set<Hash> {
    match op
    case CreatePasskeyAccount(_, _, _, _, previous) => Revoked(db, previous, env.previous)
    case LoginPasskey(_, _, _, _, _, _, previous) => Revoked(db, previous, env.previous)
    case LoginWallet(_, _, previous) => Revoked(db, previous, env.previous)
    case Logout(session) => if env.found then {session} else {}
    case RedeemRecoveryCode(code, _) => if code in db.codes then SessionsOf(db, db.codes[code]) else {}
    case Purge(sessions, _) => sessions
    case _ => {}
  }

  datatype Grant = Grant(hash: Hash, row: SessionRow)

  /** The session an operation opens, if it opens one. */
  function Granted(db: Db, op: Op, env: Env): Option<Grant> {
    match op
    case CreatePasskeyAccount(_, _, _, session, _) => Some(Grant(session, NewSession(env.freshAccount, ByPasskey, env)))
    case LoginPasskey(account, _, _, _, _, session, _) => Some(Grant(session, NewSession(account, ByPasskey, env)))
    case LoginWallet(w, session, _) =>
      Some(Grant(session, NewSession(if w in db.wallets then db.wallets[w] else env.freshAccount, ByWallet, env)))
    case RedeemRecoveryCode(code, session) =>
      if code in db.codes then Some(Grant(session, NewSession(db.codes[code], ByRecovery, env))) else None
    case _ => None
  }

  predicate SessionsAfter(db: Db, op: Op, env: Env, after: Db) {
    var kept := db.sessions - Ended(db, op, env);
    match Granted(db, op, env)
    case None => after.sessions == kept
    case Some(g) =>
      && HashUnused(db, g.hash) && g.row.account in after.accounts
      && after.sessions == kept[g.hash := g.row]
  }

  /** The account whose live session an operation presents, if it presents one. */
  function Presenter(db: Db, session: Option<Hash>): Option<AccountId> {
    if session.Some? && session.value in db.sessions then Some(db.sessions[session.value].account) else None
  }

  predicate ChallengesAfter(db: Db, op: Op, env: Env, after: Db) {
    match op
    case IssueChallenge(h, _, kind, _, handle, wallet, session) =>
      && HashUnused(db, h)
      && handle.Some? == kind.NeedsHandle() && wallet.Some? == kind.NeedsWallet() && session.Some? == kind.NeedsSession()
      && Presenter(db, session).Some? == session.Some?
      && (session.Some? ==> Presenter(db, session).value in db.accounts)
      && after.challenges == db.challenges[h := IssuedRow(op, env, Presenter(db, session))]
    case ConsumeChallenge(h, _, kind, session) =>
      && session.Some? == kind.NeedsSession() && Presenter(db, session).Some? == session.Some?
      && h in db.challenges && Matches(db.challenges[h], op, Presenter(db, session), env.deleteClock)
      && after.challenges == db.challenges - {h}
    case RedeemRecoveryCode(code, _) =>
      code in db.codes && after.challenges == db.challenges - ChallengesOf(db, db.codes[code])
    case Purge(_, challenges) => after.challenges == db.challenges - challenges
    case _ => after.challenges == db.challenges
  }

  predicate CodesAfter(db: Db, op: Op, env: Env, after: Db) {
    match op
    case ReplaceRecoveryCodes(session, codes) =>
      && session in db.sessions && !db.sessions[session].via.ByRecovery?
      && |codes| == REQUIRED_RECOVERY_CODES && Distinct(codes)
      && var a := db.sessions[session].account;
      && a in db.accounts
      && (forall h :: h in codes && h in db.codes ==> db.codes[h] == a)
      && after.codes == (db.codes - CodesOf(db, a)) + Minted(codes, a)
    case RedeemRecoveryCode(code, _) =>
      code in db.codes && db.codes[code] in db.accounts && after.codes == db.codes - {code}
    case _ => after.codes == db.codes
  }

  /** The tables an operation may change. */
  predicate Touches(db: Db, op: Op, after: Db) {
    match op
    case IssueChallenge(_, _, _, _, _, _, _) => after == db.(challenges := after.challenges)
    case ConsumeChallenge(_, _, _, _) => after == db.(challenges := after.challenges)
    case CreatePasskeyAccount(_, _, _, _, _) =>
      after == db.(accounts := after.accounts, passkeys := after.passkeys, sessions := after.sessions)
    case LoginPasskey(_, _, _, _, _, _, _) => after == db.(passkeys := after.passkeys, sessions := after.sessions)
    case LoginWallet(_, _, _) => after == db.(accounts := after.accounts, wallets := after.wallets, sessions := after.sessions)
    case AddPasskey(_, _, _, _) => after == db.(passkeys := after.passkeys)
    case LinkWallet(_, _) => after == db.(wallets := after.wallets)
    case ReplaceRecoveryCodes(_, _) => after == db.(codes := after.codes)
    case RedeemRecoveryCode(_, _) =>
      after == db.(codes := after.codes, sessions := after.sessions, challenges := after.challenges)
    case Logout(_) => after == db.(sessions := after.sessions)
    case Purge(_, _) => after == db.(sessions := after.sessions, challenges := after.challenges)
  }

  lemma IssueTouches(db: Db, op: Op, env: Env, after: Db)
    requires op.IssueChallenge? && ExecIssue(db, op, env).Ok? && ExecIssue(db, op, env).value.db == after
    ensures after == db.(challenges := after.challenges)
  {
    if op.viaSession.None? {
      assert after == IssueFor(db, op, env, None).db;
    } else {
      var row := FreshSession(db, op.viaSession.value, env).value;
      assert after == IssueFor(db, op, env, Some(row.account)).db;
    }
  }

  lemma ConsumeTouches(db: Db, op: Op, env: Env, after: Db)
    requires op.ConsumeChallenge? && ExecConsume(db, op, env).Ok? && ExecConsume(db, op, env).value.db == after
    ensures after == db.(challenges := after.challenges)
  {}

  lemma CreateTouches(db: Db, op: Op, env: Env, after: Db)
    requires op.CreatePasskeyAccount? && ExecCreate(db, op, env).Ok? && ExecCreate(db, op, env).value.db == after
    ensures after == db.(accounts := after.accounts, passkeys := after.passkeys, sessions := after.sessions)
  {}

  lemma LoginPasskeyTouches(db: Db, op: Op, env: Env, after: Db)
    requires op.LoginPasskey? && ExecLoginPasskey(db, op, env).Ok? && ExecLoginPasskey(db, op, env).value.db == after
    ensures after == db.(passkeys := after.passkeys, sessions := after.sessions)
  {}

  lemma LoginWalletTouches(db: Db, op: Op, env: Env, after: Db)
    requires op.LoginWallet? && ExecLoginWallet(db, op, env).Ok? && ExecLoginWallet(db, op, env).value.db == after
    ensures after == db.(accounts := after.accounts, wallets := after.wallets, sessions := after.sessions)
  {}

  lemma AddPasskeyTouches(db: Db, op: Op, env: Env, after: Db)
    requires op.AddPasskey? && ExecAddPasskey(db, op, env).Ok? && ExecAddPasskey(db, op, env).value.db == after
    ensures after == db.(passkeys := after.passkeys)
  {}

  lemma LinkWalletTouches(db: Db, op: Op, env: Env, after: Db)
    requires op.LinkWallet? && ExecLinkWallet(db, op, env).Ok? && ExecLinkWallet(db, op, env).value.db == after
    ensures after == db.(wallets := after.wallets)
  {}

  lemma ReplaceTouches(db: Db, op: Op, env: Env, after: Db)
    requires op.ReplaceRecoveryCodes? && ExecReplace(db, op, env).Ok? && ExecReplace(db, op, env).value.db == after
    ensures after == db.(codes := after.codes)
  {}

  lemma RedeemTouches(db: Db, op: Op, env: Env, after: Db)
    requires op.RedeemRecoveryCode? && ExecRedeem(db, op, env).Ok? && ExecRedeem(db, op, env).value.db == after
    ensures after == db.(codes := after.codes, sessions := after.sessions, challenges := after.challenges)
  {}

  lemma OnlyTouches(db: Db, op: Op, env: Env, after: Db)
    requires Commits(db, op, env, after)
    ensures Touches(db, op, after)
  {
    match op
    case IssueChallenge(_, _, _, _, _, _, _) => IssueTouches(db, op, env, after);
    case ConsumeChallenge(_, _, _, _) => ConsumeTouches(db, op, env, after);
    case CreatePasskeyAccount(_, _, _, _, _) => CreateTouches(db, op, env, after);
    case LoginPasskey(_, _, _, _, _, _, _) => LoginPasskeyTouches(db, op, env, after);
    case LoginWallet(_, _, _) => LoginWalletTouches(db, op, env, after);
    case AddPasskey(_, _, _, _) => AddPasskeyTouches(db, op, env, after);
    case LinkWallet(_, _) => LinkWalletTouches(db, op, env, after);
    case ReplaceRecoveryCodes(_, _) => ReplaceTouches(db, op, env, after);
    case RedeemRecoveryCode(_, _) => RedeemTouches(db, op, env, after);
    case Logout(_) =>
    case Purge(_, _) =>
  }

  lemma AccountsEffect(db: Db, op: Op, env: Env, after: Db)
    requires Commits(db, op, env, after)
    ensures AccountsAfter(db, op, env, after)
  {
    OnlyTouches(db, op, env, after);
    match op
    case CreatePasskeyAccount(_, _, _, _, _) => CreateAccounts(db, op, env, after);
    case LoginWallet(_, _, _) => WalletAccounts(db, op, env, after);
    case _ =>
  }

  lemma CreateAccounts(db: Db, op: Op, env: Env, after: Db)
    requires op.CreatePasskeyAccount? && ExecCreate(db, op, env).Ok? && ExecCreate(db, op, env).value.db == after
    ensures AccountsAfter(db, op, env, after)
  {}

  lemma WalletAccounts(db: Db, op: Op, env: Env, after: Db)
    requires op.LoginWallet? && ExecLoginWallet(db, op, env).Ok? && ExecLoginWallet(db, op, env).value.db == after
    ensures AccountsAfter(db, op, env, after)
  {}

  lemma PasskeysEffect(db: Db, op: Op, env: Env, after: Db)
    requires Commits(db, op, env, after)
    ensures PasskeysAfter(db, op, env, after)
  {
    OnlyTouches(db, op, env, after);
    match op
    case CreatePasskeyAccount(_, _, _, _, _) => CreateEffect(db, op, env, after);
    case LoginPasskey(_, _, _, _, _, _, _) => LoginEffect(db, op, env, after);
    case AddPasskey(_, _, _, _) => AddEffect(db, op, env, after);
    case _ =>
  }

  lemma CreateEffect(db: Db, op: Op, env: Env, after: Db)
    requires op.CreatePasskeyAccount? && ExecCreate(db, op, env).Ok? && ExecCreate(db, op, env).value.db == after
    ensures PasskeysAfter(db, op, env, after)
  {}

  lemma LoginEffect(db: Db, op: Op, env: Env, after: Db)
    requires op.LoginPasskey? && ExecLoginPasskey(db, op, env).Ok? && ExecLoginPasskey(db, op, env).value.db == after
    ensures PasskeysAfter(db, op, env, after)
  {}

  lemma AddEffect(db: Db, op: Op, env: Env, after: Db)
    requires op.AddPasskey? && ExecAddPasskey(db, op, env).Ok? && ExecAddPasskey(db, op, env).value.db == after
    ensures PasskeysAfter(db, op, env, after)
  {}

  lemma WalletsEffect(db: Db, op: Op, env: Env, after: Db)
    requires Commits(db, op, env, after)
    ensures WalletsAfter(db, op, env, after)
  {
    OnlyTouches(db, op, env, after);
    match op
    case LoginWallet(_, _, _) => WalletLoginEffect(db, op, env, after);
    case LinkWallet(_, _) => LinkEffect(db, op, env, after);
    case _ =>
  }

  lemma WalletLoginEffect(db: Db, op: Op, env: Env, after: Db)
    requires op.LoginWallet? && ExecLoginWallet(db, op, env).Ok? && ExecLoginWallet(db, op, env).value.db == after
    ensures WalletsAfter(db, op, env, after)
  {}

  lemma LinkEffect(db: Db, op: Op, env: Env, after: Db)
    requires op.LinkWallet? && ExecLinkWallet(db, op, env).Ok? && ExecLinkWallet(db, op, env).value.db == after
    ensures WalletsAfter(db, op, env, after)
  {}

  lemma SessionsEffect(db: Db, op: Op, env: Env, after: Db)
    requires Commits(db, op, env, after)
    ensures SessionsAfter(db, op, env, after)
  {
    OnlyTouches(db, op, env, after);
    match op
    case CreatePasskeyAccount(_, _, _, _, _) => CreateSessionEffect(db, op, env, after);
    case LoginPasskey(_, _, _, _, _, _, _) => LoginSessionEffect(db, op, env, after);
    case LoginWallet(_, _, _) => WalletSessionEffect(db, op, env, after);
    case RedeemRecoveryCode(_, _) => RedeemSessionEffect(db, op, env, after);
    case _ => assert db.sessions - {} == db.sessions;
  }

  lemma CreateSessionEffect(db: Db, op: Op, env: Env, after: Db)
    requires op.CreatePasskeyAccount? && ExecCreate(db, op, env).Ok? && ExecCreate(db, op, env).value.db == after
    ensures SessionsAfter(db, op, env, after)
  {
    assert db.sessions - {} == db.sessions;
  }

  lemma LoginSessionEffect(db: Db, op: Op, env: Env, after: Db)
    requires op.LoginPasskey? && ExecLoginPasskey(db, op, env).Ok? && ExecLoginPasskey(db, op, env).value.db == after
    ensures SessionsAfter(db, op, env, after)
  {
    assert db.sessions - {} == db.sessions;
  }

  lemma RedeemSessionEffect(db: Db, op: Op, env: Env, after: Db)
    requires op.RedeemRecoveryCode? && ExecRedeem(db, op, env).Ok? && ExecRedeem(db, op, env).value.db == after
    ensures SessionsAfter(db, op, env, after)
  {
    assert db.sessions - {} == db.sessions;
  }

  lemma WalletSessionEffect(db: Db, op: Op, env: Env, after: Db)
    requires op.LoginWallet? && ExecLoginWallet(db, op, env).Ok? && ExecLoginWallet(db, op, env).value.db == after
    ensures SessionsAfter(db, op, env, after)
  {
    assert db.sessions - {} == db.sessions;
  }

  lemma ChallengesEffect(db: Db, op: Op, env: Env, after: Db)
    requires Commits(db, op, env, after)
    ensures ChallengesAfter(db, op, env, after)
  {
    OnlyTouches(db, op, env, after);
    match op
    case IssueChallenge(_, _, _, _, _, _, _) => IssueEffect(db, op, env, after);
    case ConsumeChallenge(_, _, _, _) => ConsumeEffect(db, op, env, after);
    case RedeemRecoveryCode(_, _) => assert ExecRedeem(db, op, env).value.db == after;
    case _ =>
  }

  lemma IssueEffect(db: Db, op: Op, env: Env, after: Db)
    requires op.IssueChallenge? && ExecIssue(db, op, env).Ok? && ExecIssue(db, op, env).value.db == after
    ensures ChallengesAfter(db, op, env, after)
  {
    if op.viaSession.Some? { PresentedIssueEffect(db, op, env, after); }
  }

  lemma PresentedIssueEffect(db: Db, op: Op, env: Env, after: Db)
    requires op.IssueChallenge? && op.viaSession.Some?
    requires ExecIssue(db, op, env).Ok? && ExecIssue(db, op, env).value.db == after
    ensures ChallengesAfter(db, op, env, after)
  {
    var row := db.sessions[op.viaSession.value];
    assert FreshSession(db, op.viaSession.value, env) == Ok(row);
    assert after == IssueFor(db, op, env, Some(row.account)).db;
  }

  lemma ConsumeEffect(db: Db, op: Op, env: Env, after: Db)
    requires op.ConsumeChallenge? && ExecConsume(db, op, env).Ok? && ExecConsume(db, op, env).value.db == after
    ensures ChallengesAfter(db, op, env, after)
  {}

  lemma CodesEffect(db: Db, op: Op, env: Env, after: Db)
    requires Commits(db, op, env, after)
    ensures CodesAfter(db, op, env, after)
  {
    OnlyTouches(db, op, env, after);
    match op
    case ReplaceRecoveryCodes(_, _) => ReplaceEffect(db, op, env, after);
    case RedeemRecoveryCode(_, _) => RedeemEffect(db, op, env, after);
    case _ =>
  }

  lemma ReplaceEffect(db: Db, op: Op, env: Env, after: Db)
    requires op.ReplaceRecoveryCodes? && ExecReplace(db, op, env).Ok? && ExecReplace(db, op, env).value.db == after
    ensures CodesAfter(db, op, env, after)
  {}

  lemma RedeemEffect(db: Db, op: Op, env: Env, after: Db)
    requires op.RedeemRecoveryCode? && ExecRedeem(db, op, env).Ok? && ExecRedeem(db, op, env).value.db == after
    ensures CodesAfter(db, op, env, after)
  {}
}
