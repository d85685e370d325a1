/**
 * Each repository operation as one atomic transition: the committed tables and reply, or the
 * error code with which everything is rolled back. Checks come in the order the store makes them.
 */
module AuthSpec {
  import opened Prelude
  import opened AuthTables

  function Exec(db: Db, op: Op, env: Env): Result<Committed> {
    match op
    case IssueChallenge(_, _, _, _, _, _, _) => ExecIssue(db, op, env)
    case ConsumeChallenge(_, _, _, _) => ExecConsume(db, op, env)
    case CreatePasskeyAccount(_, _, _, _, _) => ExecCreate(db, op, env)
    case LoginPasskey(_, _, _, _, _, _, _) => ExecLoginPasskey(db, op, env)
    case LoginWallet(_, _, _) => ExecLoginWallet(db, op, env)
    case Logout(session) =>
      Ok(Committed(if env.found then db.(sessions := db.sessions - {session}) else db, NoReply))
    case AddPasskey(_, _, _, _) => ExecAddPasskey(db, op, env)
    case LinkWallet(_, _) => ExecLinkWallet(db, op, env)
    case ReplaceRecoveryCodes(_, _) => ExecReplace(db, op, env)
    case RedeemRecoveryCode(_, _) => ExecRedeem(db, op, env)
    case Purge(_, _) => ExecPurge(db, op, env)
  }

  function LockAccount(db: Db, a: AccountId): Result<AccountRow> {
    if a !in db.accounts then Err(SessionInvalid)
    else if db.accounts[a].status.Disabled? then Err(AccountDisabled)
    else Ok(db.accounts[a])
  }

  /** The session and its active account, fresh at both clock reads. */
  function FreshSession(db: Db, h: Hash, env: Env): Result<SessionRow> {
    if h !in db.sessions then Err(SessionInvalid) else
    var row := db.sessions[h];
    var _ :- LockAccount(db, row.account);
    if FreshInSql(row, env.sqlClock) && FreshInMillis(row, env.jsClock) then Ok(row)
    else Err(SessionInvalid)
  }

  /** Delete the previous session only when it still belongs to the account resolved for it. */
  function RevokePrevious(db: Db, previous: Option<Hash>, account: Option<AccountId>): Db {
    if && previous.Some? && account.Some?
       && previous.value in db.sessions && db.sessions[previous.value].account == account.value
    then db.(sessions := db.sessions - {previous.value})
    else db
  }

  function NewSession(a: AccountId, via: SessionMethod, env: Env): SessionRow {
    SessionRow(a, via, env.start, env.start + ONE_DAY)
  }

  function WithSession(db: Db, h: Hash, row: SessionRow): Committed {
    Committed(db.(sessions := db.sessions[h := row]), SessionReply(row))
  }

  function ExecIssue(db: Db, op: Op, env: Env): Result<Committed>
    requires op.IssueChallenge?
  {
    if op.handle.Some? != op.kind.NeedsHandle() then Err(InputInvalid)
    else if op.wallet.Some? != op.kind.NeedsWallet() then Err(InputInvalid)
    else if op.viaSession.Some? != op.kind.NeedsSession() then Err(InputInvalid)
    else if op.viaSession == Some(op.hash) then Err(Conflict)
    else if !HashUnused(db, op.hash) then Err(Conflict)
    else if op.viaSession.None? then Ok(IssueFor(db, op, env, None))
    else
      var row :- FreshSession(db, op.viaSession.value, env);
      if op.kind.NeedsHandle() && Some(db.accounts[row.account].handle) != op.handle then Err(SessionInvalid)
      else Ok(IssueFor(db, op, env, Some(row.account)))
  }

  function IssueFor(db: Db, op: Op, env: Env, account: Option<AccountId>): Committed
    requires op.IssueChallenge?
  {
    var row := IssuedRow(op, env, account);
    Committed(db.(challenges := db.challenges[op.hash := row]), ChallengeReply(row))
  }

  function IssuedRow(op: Op, env: Env, account: Option<AccountId>): ChallengeRow
    requires op.IssueChallenge?
  {
    ChallengeRow(op.binding, op.kind, op.challenge, op.handle, account, op.wallet,
                 env.start, env.start + FIVE_MINUTES)
  }

  function ExecConsume(db: Db, op: Op, env: Env): Result<Committed>
    requires op.ConsumeChallenge?
  {
    if op.kind.NeedsSession() && op.viaSession.None? then Err(ChallengeInvalid)
    else if !op.kind.NeedsSession() && op.viaSession.Some? then Err(InputInvalid)
    else if op.viaSession.None? then ConsumeBound(db, op, env, None)
    else
      var row :- FreshSession(db, op.viaSession.value, env);
      ConsumeBound(db, op, env, Some(row.account))
  }

  function ConsumeBound(db: Db, op: Op, env: Env, bound: Option<AccountId>): Result<Committed>
    requires op.ConsumeChallenge?
  {
    if op.hash in db.challenges && Matches(db.challenges[op.hash], op, bound, env.deleteClock) then
      Ok(Committed(db.(challenges := db.challenges - {op.hash}), ChallengeReply(db.challenges[op.hash])))
    else Err(ChallengeInvalid)
  }

  predicate Matches(row: ChallengeRow, op: Op, bound: Option<AccountId>, clock: Time)
    requires op.ConsumeChallenge?
  {
    && row.binding == op.binding && row.kind == op.kind && row.expiresAt > clock
    && (bound.Some? ==> row.account == bound)
  }

  function ExecCreate(db: Db, op: Op, env: Env): Result<Committed>
    requires op.CreatePasskeyAccount?
  {
    if !op.credential.Acceptable() then Err(InputInvalid)
    else if op.previous == Some(op.session) then Err(Conflict)
    else if !HashUnused(db, op.session) then Err(Conflict)
    else if op.newHandle in HandlesIn(db) then Err(Conflict)
    else if op.id in db.passkeys then Err(Conflict)
    else if env.freshAccount in db.accounts then Err(Conflict)
    else
      var withAccount := db.(
        accounts := db.accounts[env.freshAccount := AccountRow(op.newHandle, Active)],
        passkeys := db.passkeys[op.id := PasskeyRow(env.freshAccount, op.credential)]);
      Ok(WithSession(RevokePrevious(withAccount, op.previous, env.previous), op.session,
                     NewSession(env.freshAccount, ByPasskey, env)))
  }

  /** The counter rule of a login: it must grow, unless both counters are zero. */
  predicate CounterAdvances(stored: nat, presented: nat) {
    (stored != 0 || presented != 0) ==> presented > stored
  }

  /** A stored passkey is the one the caller verified its proof against. */
  predicate SameSnapshot(row: PasskeyRow, op: Op)
    requires op.LoginPasskey?
  {
    && row.account == op.account && row.credential.device == op.expected.device
    && row.credential.counter == op.expected.counter && row.credential.backedUp == op.expected.backedUp
    && row.credential.publicKey == op.expected.publicKey
  }

  function ExecLoginPasskey(db: Db, op: Op, env: Env): Result<Committed>
    requires op.LoginPasskey?
  {
    if !op.expected.Acceptable() || op.newCounter > MAX_COUNTER then Err(InputInvalid)
    else if op.previous == Some(op.session) then Err(Conflict)
    else if op.expected.device.SingleDevice? && op.backedUp then Err(InputInvalid)
    else if !CounterAdvances(op.expected.counter, op.newCounter) then Err(InputInvalid)
    else if !HashUnused(db, op.session) then Err(Conflict)
    else if op.id !in db.passkeys || db.passkeys[op.id].account != op.account then Err(Conflict)
    else if op.account !in db.accounts then Err(Conflict)
    else if db.accounts[op.account].status.Disabled? then Err(AccountDisabled)
    else if !SameSnapshot(db.passkeys[op.id], op) then Err(Conflict)
    else
      var row := db.passkeys[op.id];
      var updated := row.(credential := row.credential.(counter := op.newCounter, backedUp := op.backedUp));
      var revoked := RevokePrevious(db, op.previous, env.previous);
      Ok(WithSession(revoked.(passkeys := db.passkeys[op.id := updated]), op.session,
                     NewSession(op.account, ByPasskey, env)))
  }

  function ExecLoginWallet(db: Db, op: Op, env: Env): Result<Committed>
    requires op.LoginWallet?
  {
    if op.previous == Some(op.session) then Err(Conflict)
    else if !HashUnused(db, op.session) then Err(Conflict)
    else if op.address in db.wallets then
      var a := db.wallets[op.address];
      if a !in db.accounts then Err(Conflict)
      else if db.accounts[a].status.Disabled? then Err(AccountDisabled)
      else
        Ok(WithSession(RevokePrevious(db, op.previous, env.previous), op.session,
                       NewSession(a, ByWallet, env)))
    else if op.previous.Some? && env.previous.Some? && LockAccount(db, env.previous.value).Err? then
      Err(LockAccount(db, env.previous.value).error)
    else if env.freshAccount in db.accounts || env.freshHandle in HandlesIn(db) then Err(Conflict)
    else
      var withWallet := db.(
        accounts := db.accounts[env.freshAccount := AccountRow(env.freshHandle, Active)],
        wallets := db.wallets[op.address := env.freshAccount]);
      Ok(WithSession(RevokePrevious(withWallet, op.previous, env.previous), op.session,
                     NewSession(env.freshAccount, ByWallet, env)))
  }

  function ExecAddPasskey(db: Db, op: Op, env: Env): Result<Committed>
    requires op.AddPasskey?
  {
    if !op.credential.Acceptable() then Err(InputInvalid)
    else if op.id in db.passkeys then Err(Conflict)
    else
      var row :- FreshSession(db, op.session, env);
      if db.accounts[row.account].handle != op.ownHandle then Err(SessionInvalid)
      else if |PasskeysOf(db, row.account)| >= MAX_CREDENTIALS_PER_ACCOUNT then Err(LimitReached)
      else Ok(Committed(db.(passkeys := db.passkeys[op.id := PasskeyRow(row.account, op.credential)]), NoReply))
  }

  function ExecLinkWallet(db: Db, op: Op, env: Env): Result<Committed>
    requires op.LinkWallet?
  {
    var row :- FreshSession(db, op.session, env);
    if op.address in db.wallets then Err(Conflict)
    else if |WalletsOf(db, row.account)| >= MAX_WALLETS_PER_ACCOUNT then Err(LimitReached)
    else Ok(Committed(db.(wallets := db.wallets[op.address := row.account]), NoReply))
  }

  predicate Distinct(codes: seq<Hash>) {
    forall i, j :: 0 <= i < j < |codes| ==> codes[i] != codes[j]
  }

  /** Counting the distinct elements tells whether there is a repetition. */
  lemma {:induction false} DistinctIff(codes: seq<Hash>)
    ensures |Elements(codes)| <= |codes|
    ensures Distinct(codes) <==> |Elements(codes)| == |codes|
  {
    if codes != [] {
      var first, rest := codes[0], codes[1..];
      DistinctIff(rest);
      assert Elements(codes) == Elements(rest) + {first};
      if first in rest {
        assert Elements(codes) == Elements(rest);
        var j :| 0 <= j < |rest| && rest[j] == first;
        assert codes[0] == codes[j + 1];
      } else {
        assert forall i, j :: 0 <= i < j < |rest| ==> codes[i + 1] == rest[i] && codes[j + 1] == rest[j];
        assert Distinct(rest) ==> Distinct(codes) by {
          if Distinct(rest) {
            forall i, j | 0 <= i < j < |codes| ensures codes[i] != codes[j] {
              assert codes[j] == rest[j - 1];
              assert i > 0 ==> codes[i] == rest[i - 1];
            }
          }
        }
      }
    }
  }

  function ExecReplace(db: Db, op: Op, env: Env): Result<Committed>
    requires op.ReplaceRecoveryCodes?
  {
    if |op.codes| != REQUIRED_RECOVERY_CODES || !Distinct(op.codes) then Err(InputInvalid)
    else
      var row :- FreshSession(db, op.session, env);
      if row.via.ByRecovery? then Err(SessionInvalid)
      else
        var cleared := db.codes - CodesOf(db, row.account);
        if AnyTaken(op.codes, cleared) then Err(Conflict)
        else Ok(Committed(db.(codes := cleared + Minted(op.codes, row.account)), NoReply))
  }

  predicate AnyTaken(codes: seq<Hash>, taken: map<Hash, AccountId>) { exists h :: h in codes && h in taken }

  function Minted(codes: seq<Hash>, a: AccountId): map<Hash, AccountId> { map h | h in codes :: a }

  function ExecRedeem(db: Db, op: Op, env: Env): Result<Committed>
    requires op.RedeemRecoveryCode?
  {
    if op.code == op.session then Err(Conflict)
    else if !HashUnused(db, op.session) then Err(Conflict)
    else if op.code !in db.codes then Err(InputInvalid)
    else
      var a := db.codes[op.code];
      var _ :- LockAccount(db, a);
      Ok(WithSession(
        db.(codes := db.codes - {op.code},
            sessions := db.sessions - SessionsOf(db, a),
            challenges := db.challenges - ChallengesOf(db, a)),
        op.session, NewSession(a, ByRecovery, env)))
  }

  function ExecPurge(db: Db, op: Op, env: Env): Result<Committed>
    requires op.Purge?
  {
    if && (forall h :: h in op.sessions ==> h in db.sessions && db.sessions[h].expiresAt <= env.sqlClock)
       && (forall h :: h in op.challenges ==> h in db.challenges && db.challenges[h].expiresAt <= env.sqlClock)
    then Ok(Committed(db.(sessions := db.sessions - op.sessions, challenges := db.challenges - op.challenges), NoReply))
    else Err(Database)
  }
}
