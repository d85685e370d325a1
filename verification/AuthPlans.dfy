/**
 * The statements of every repository transaction, in source order, and the proof that each obeys
 * the locking discipline. Values a statement will read are named in advance by an `Oracle`; a
 * transaction whose reads turn out otherwise rolls back, so every real run is one choice of oracle.
 */
module AuthPlans {
  import opened Prelude
  import opened AuthTables
  import opened AuthSpec
  import opened AuthLocking
  import Lex

  datatype Oracle = Oracle(
    session: SessionRow, account: AccountRow, previousRow: Option<SessionRow>,
    owner: Option<AccountId>, challenge: ChallengeRow, passkey: PasskeyRow, codeAccount: AccountId,
    sessionRows: map<Hash, SessionRow>, challengeRows: map<Hash, ChallengeRow>,
    sessionKeys: seq<Hash>, challengeKeys: seq<Hash>, codeKeys: seq<Hash>)

  /** `#assertHashUnused`: the advisory lock, then both lookups. */
  function AssertHashUnused(h: Hash, rest: Plan): Plan {
    Do(AdviseHash(h), Do(Check(HashFree(h)), rest))
  }

  /** `#lockAccount`. */
  function LockActive(a: AccountId, row: AccountRow, rest: Plan): Plan {
    Do(LockAccountRow(a), Do(Check(AccountIs(a, row)), Do(Require(row.status.Active?), rest)))
  }

  /** `#lockFreshSession`. */
  function LockFresh(h: Hash, o: Oracle, env: Env, rest: Plan): Plan {
    Do(Peek(SessionOwnerIs(h, Some(o.session.account))),
    LockActive(o.session.account, o.account,
    Do(ReadClock(env.sqlClock),
    Do(Require(FreshInSql(o.session, env.sqlClock)),
    Do(Select(SessionIs(h, o.session)),
    Do(ReadClock(env.jsClock),
    Do(Require(FreshInMillis(o.session, env.jsClock)), rest)))))))
  }

  /** `#lockAccountsSorted` for at most two accounts. */
  function LockSorted(a: Option<AccountId>, b: Option<AccountId>, rest: Plan): Plan {
    match (a, b)
    case (None, None) => rest
    case (Some(x), None) => Do(LockAccountRow(x), rest)
    case (None, Some(y)) => Do(LockAccountRow(y), rest)
    case (Some(x), Some(y)) =>
      if x == y then Do(LockAccountRow(x), rest)
      else if Lex.Less(x, y) then Do(LockAccountRow(x), Do(LockAccountRow(y), rest))
      else Do(LockAccountRow(y), Do(LockAccountRow(x), rest))
  }

  function PreviousAccount(previous: Option<Hash>, env: Env): Option<AccountId> {
    if previous.Some? then env.previous else None
  }

  /** `#resolveSessionAccountId` for the previous session, if one was presented. */
  function Discover(previous: Option<Hash>, env: Env, rest: Plan): Plan {
    if previous.Some? then Do(Peek(SessionOwnerIs(previous.value, env.previous)), rest) else rest
  }

  /** Delete the previous session of the locked account, when the row is still there. */
  function Revoke(previous: Option<Hash>, o: Oracle, env: Env, rest: Plan): Plan {
    match (previous, env.previous)
    case (Some(p), Some(a)) =>
      if o.previousRow.Some? && o.previousRow.value.account == a
      then Do(Select(SessionIs(p, o.previousRow.value)), Do(Put(DeleteSession(p)), rest))
      else Do(Check(NotSessionOf(p, a)), rest)
    case _ => rest
  }

  function LockSessions(a: AccountId, keys: seq<Hash>, rows: map<Hash, SessionRow>, rest: Plan): Plan {
    if keys == [] then rest
    else if keys[0] !in rows then Do(Require(false), rest)
    else
      Do(Require(rows[keys[0]].account == a),
      Do(Select(SessionIs(keys[0], rows[keys[0]])), LockSessions(a, keys[1..], rows, rest)))
  }

  function LockChallenges(a: AccountId, keys: seq<Hash>, rows: map<Hash, ChallengeRow>, rest: Plan): Plan {
    if keys == [] then rest
    else if keys[0] !in rows then Do(Require(false), rest)
    else
      Do(Require(rows[keys[0]].account == Some(a)),
      Do(Select(ChallengeIs(keys[0], rows[keys[0]])), LockChallenges(a, keys[1..], rows, rest)))
  }

  function LockCodes(a: AccountId, keys: seq<Hash>, rest: Plan): Plan {
    if keys == [] then rest else Do(Select(CodeIs(keys[0], a)), LockCodes(a, keys[1..], rest))
  }

  function KeySet(keys: seq<Hash>): set<Hash> { set x | x in keys }

  /** An account-wide DELETE: lock the rows one at a time in any order, then remove them all. */
  function Sweep(t: Table, a: AccountId, keys: seq<Hash>, rest: Plan): Plan {
    Do(Check(OnlyRows(t, a, KeySet(keys))), Do(Put(DeleteAllOf(t, a, KeySet(keys))), rest))
  }

  function InsertCodes(a: AccountId, codes: seq<Hash>, rest: Plan): Plan {
    if codes == [] then rest else Do(Put(InsertCode(codes[0], a)), InsertCodes(a, codes[1..], rest))
  }

  predicate IssueShape(op: Op)
    requires op.IssueChallenge?
  {
    && op.handle.Some? == op.kind.NeedsHandle() && op.wallet.Some? == op.kind.NeedsWallet()
    && op.viaSession.Some? == op.kind.NeedsSession() && op.viaSession != Some(op.hash)
  }

  function IssuePlan(op: Op, env: Env, o: Oracle): Plan
    requires op.IssueChallenge?
  {
    Do(Require(IssueShape(op)), AssertHashUnused(op.hash,
      if op.viaSession.None? then
        Do(Put(InsertChallenge(op.hash, IssuedRow(op, env, None))), Done)
      else
        LockFresh(op.viaSession.value, o, env,
        Do(Require(op.kind.NeedsHandle() ==> Some(o.account.handle) == op.handle),
        Do(Put(InsertChallenge(op.hash, IssuedRow(op, env, Some(o.session.account)))), Done)))))
  }

  function ConsumePlan(op: Op, env: Env, o: Oracle): Plan
    requires op.ConsumeChallenge?
  {
    Do(Require(op.kind.NeedsSession() == op.viaSession.Some?),
      if op.viaSession.None? then TakeChallenge(op, env, o, None)
      else LockFresh(op.viaSession.value, o, env, TakeChallenge(op, env, o, Some(o.session.account))))
  }

  function TakeChallenge(op: Op, env: Env, o: Oracle, bound: Option<AccountId>): Plan
    requires op.ConsumeChallenge?
  {
    Do(ReadClock(env.deleteClock),
    Do(Require(Matches(o.challenge, op, bound, env.deleteClock)),
    Do(Select(ChallengeIs(op.hash, o.challenge)),
    Do(Put(DeleteChallenge(op.hash)), Done))))
  }

  function CreatePlan(op: Op, env: Env, o: Oracle): Plan
    requires op.CreatePasskeyAccount?
  {
    Do(Require(op.credential.Acceptable() && op.previous != Some(op.session)),
    AssertHashUnused(op.session,
    Do(Peek(HandleFree(op.newHandle)),
    Do(Peek(CredentialFree(op.id)),
    Discover(op.previous, env,
    LockSorted(None, PreviousAccount(op.previous, env),
    Do(Put(InsertAccount(env.freshAccount, AccountRow(op.newHandle, Active))),
    Do(Put(InsertPasskey(op.id, PasskeyRow(env.freshAccount, op.credential))),
    Revoke(op.previous, o, env,
    Do(Put(InsertSession(op.session, NewSession(env.freshAccount, ByPasskey, env))), Done))))))))))
  }

  predicate LoginShape(op: Op)
    requires op.LoginPasskey?
  {
    && op.expected.Acceptable() && op.newCounter <= MAX_COUNTER && op.previous != Some(op.session)
    && !(op.expected.device.SingleDevice? && op.backedUp)
    && CounterAdvances(op.expected.counter, op.newCounter)
  }

  function LoginPasskeyPlan(op: Op, env: Env, o: Oracle): Plan
    requires op.LoginPasskey?
  {
    Do(Require(LoginShape(op)),
    AssertHashUnused(op.session,
    Do(Peek(PasskeyOwnerIs(op.id, op.account)),
    Discover(op.previous, env,
    LockSorted(Some(op.account), PreviousAccount(op.previous, env),
    Do(Check(AccountIs(op.account, o.account)),
    Do(Require(o.account.status.Active?),
    Revoke(op.previous, o, env,
    Do(Require(SameSnapshot(o.passkey, op)),
    Do(Select(PasskeyIs(op.id, o.passkey)),
    Do(Put(UpdatePasskey(op.id, op.newCounter, op.backedUp)),
    Do(Put(InsertSession(op.session, NewSession(op.account, ByPasskey, env))), Done))))))))))))
  }

  function NewWalletPlan(op: Op, env: Env, o: Oracle): Plan
    requires op.LoginWallet?
  {
    Do(Put(InsertAccount(env.freshAccount, AccountRow(env.freshHandle, Active))),
    Do(Put(InsertWallet(op.address, env.freshAccount)),
    Revoke(op.previous, o, env,
    Do(Put(InsertSession(op.session, NewSession(env.freshAccount, ByWallet, env))), Done))))
  }

  function KnownWalletPlan(op: Op, env: Env, o: Oracle, a: AccountId): Plan
    requires op.LoginWallet?
  {
    Do(Select(WalletIs(op.address, o.owner)),
    Do(Check(AccountIs(a, o.account)),
    Do(Require(o.account.status.Active?),
    Revoke(op.previous, o, env,
    Do(Put(InsertSession(op.session, NewSession(a, ByWallet, env))), Done)))))
  }

  /** The part of a wallet login after its accounts are locked. */
  function WalletTail(op: Op, env: Env, o: Oracle): Plan
    requires op.LoginWallet?
  {
    match o.owner
    case Some(a) => KnownWalletPlan(op, env, o, a)
    case None =>
      match PreviousAccount(op.previous, env)
      case Some(p) => LockActive(p, o.account, NewWalletPlan(op, env, o))
      case None => NewWalletPlan(op, env, o)
  }

  function LoginWalletPlan(op: Op, env: Env, o: Oracle): Plan
    requires op.LoginWallet?
  {
    Do(Require(op.previous != Some(op.session)),
    AssertHashUnused(op.session,
    Do(AdviseWallet(op.address),
    Do(Check(WalletIs(op.address, o.owner)),
    Discover(op.previous, env,
    LockSorted(o.owner, PreviousAccount(op.previous, env), WalletTail(op, env, o)))))))
  }

  function LogoutPlan(op: Op, env: Env, o: Oracle): Plan
    requires op.Logout?
  {
    if env.found then Do(Select(SessionIs(op.session, o.session)), Do(Put(DeleteSession(op.session)), Done))
    else Do(Peek(SessionOwnerIs(op.session, None)), Done)
  }

  function AddPasskeyPlan(op: Op, env: Env, o: Oracle): Plan
    requires op.AddPasskey?
  {
    Do(Require(op.credential.Acceptable()),
    Do(Peek(CredentialFree(op.id)),
    LockFresh(op.session, o, env,
    LockActive(o.session.account, o.account,
    Do(Require(o.account.handle == op.ownHandle),
    Do(Check(PasskeysBelow(o.session.account, MAX_CREDENTIALS_PER_ACCOUNT)),
    Do(Put(InsertPasskey(op.id, PasskeyRow(o.session.account, op.credential))), Done)))))))
  }

  function LinkWalletPlan(op: Op, env: Env, o: Oracle): Plan
    requires op.LinkWallet?
  {
    Do(AdviseWallet(op.address),
    LockFresh(op.session, o, env,
    LockActive(o.session.account, o.account,
    Do(Select(WalletIs(op.address, None)),
    Do(Check(WalletsBelow(o.session.account, MAX_WALLETS_PER_ACCOUNT)),
    Do(Put(InsertWallet(op.address, o.session.account)), Done))))))
  }

  function ReplacePlan(op: Op, env: Env, o: Oracle): Plan
    requires op.ReplaceRecoveryCodes?
  {
    Do(Require(|op.codes| == REQUIRED_RECOVERY_CODES && Distinct(op.codes)),
    LockFresh(op.session, o, env,
    Do(Require(!o.session.via.ByRecovery?),
    LockActive(o.session.account, o.account,
    LockCodes(o.session.account, o.codeKeys,
    Sweep(Codes, o.session.account, o.codeKeys,
    InsertCodes(o.session.account, op.codes, Done)))))))
  }

  function RedeemPlan(op: Op, env: Env, o: Oracle): Plan
    requires op.RedeemRecoveryCode?
  {
    Do(Require(op.code != op.session),
    AssertHashUnused(op.session,
    Do(Peek(CodeIs(op.code, o.codeAccount)),
    LockActive(o.codeAccount, o.account,
    Do(Select(CodeIs(op.code, o.codeAccount)),
    Do(Put(DeleteCode(op.code)),
    LockSessions(o.codeAccount, o.sessionKeys, o.sessionRows,
    Sweep(Sessions, o.codeAccount, o.sessionKeys,
    LockChallenges(o.codeAccount, o.challengeKeys, o.challengeRows,
    Sweep(Challenges, o.codeAccount, o.challengeKeys,
    Do(Put(InsertSession(op.session, NewSession(o.codeAccount, ByRecovery, env))), Done)))))))))))
  }

  /** The statements of one transaction; `purgeExpired` is not a transaction of this system. */
  function PlanOf(op: Op, env: Env, o: Oracle): Plan {
    match op
    case IssueChallenge(_, _, _, _, _, _, _) => IssuePlan(op, env, o)
    case ConsumeChallenge(_, _, _, _) => ConsumePlan(op, env, o)
    case CreatePasskeyAccount(_, _, _, _, _) => CreatePlan(op, env, o)
    case LoginPasskey(_, _, _, _, _, _, _) => LoginPasskeyPlan(op, env, o)
    case LoginWallet(_, _, _) => LoginWalletPlan(op, env, o)
    case Logout(_) => LogoutPlan(op, env, o)
    case AddPasskey(_, _, _, _) => AddPasskeyPlan(op, env, o)
    case LinkWallet(_, _) => LinkWalletPlan(op, env, o)
    case ReplaceRecoveryCodes(_, _) => ReplacePlan(op, env, o)
    case RedeemRecoveryCode(_, _) => RedeemPlan(op, env, o)
    case Purge(_, _) => Do(Require(false), Done)
  }
}
