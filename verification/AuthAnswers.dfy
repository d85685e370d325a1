/**
 * When each account operation succeeds, what it then stores, and which error it answers otherwise,
 * in the units and limits of the tables: microseconds, rows, bytes.
 */
module AuthAnswers {
  import opened Prelude
  import opened AuthTables
  import opened AuthSpec

  // ---- The conditions, in the words of the tables. ----

  /** The account is stored and not disabled. */
  predicate ActiveAccount(db: Db, a: AccountId) { a in db.accounts && db.accounts[a].status == Active }

  /** Unexpired and at most five minutes old, to the microsecond on one clock and to the millisecond on the other. */
  predicate Recent(row: SessionRow, env: Env) {
    && env.sqlClock < row.expiresAt && env.sqlClock - row.createdAt < 300_000_000
    && env.jsClock / 1000 < row.expiresAt / 1000 && env.jsClock / 1000 - row.createdAt / 1000 < 300_000
  }

  /** The session a caller presents is stored, recent, and of an active account. */
  predicate Presents(db: Db, h: Hash, env: Env) {
    h in db.sessions && ActiveAccount(db, db.sessions[h].account) && Recent(db.sessions[h], env)
  }

  /** The refusal of a session that is not presented well. */
  function SessionRefusal(db: Db, h: Hash): AuthError {
    if h in db.sessions && db.sessions[h].account in db.accounts && db.accounts[db.sessions[h].account].status == Disabled
    then AccountDisabled else SessionInvalid
  }

  predicate Taken(db: Db, h: Hash) { h in db.sessions || h in db.challenges }

  predicate Storable(c: Credential) {
    && 0 < |c.publicKey| <= 2048 && c.counter <= 4_294_967_295 && |c.transports| <= 8
    && !(c.device == SingleDevice && c.backedUp)
  }

  predicate HandleTaken(db: Db, handle: Handle) { exists a :: a in db.accounts && db.accounts[a].handle == handle }

  /** The sessions without the previous one, if it still belongs to the account that was found for it. */
  function Kept(db: Db, previous: Option<Hash>, owner: Option<AccountId>): map<Hash, SessionRow> {
    map h | h in db.sessions && !(Some(h) == previous && Some(db.sessions[h].account) == owner) :: db.sessions[h]
  }

  predicate Answers(db: Db, op: Op, env: Env, after: Db, reply: Reply) { Exec(db, op, env) == Ok(Committed(after, reply)) }

  predicate Refuses(db: Db, op: Op, env: Env, e: AuthError) { Exec(db, op, env) == Err(e) }

  lemma PresentsIff(db: Db, h: Hash, env: Env)
    ensures FreshSession(db, h, env) ==
      if Presents(db, h, env) then Ok(db.sessions[h]) else Err(SessionRefusal(db, h))
  {}

  lemma HandleTakenIff(db: Db, handle: Handle)
    ensures handle in HandlesIn(db) <==> HandleTaken(db, handle)
  {}

  lemma KeptIsRevoked(db: Db, previous: Option<Hash>, owner: Option<AccountId>)
    ensures RevokePrevious(db, previous, owner) == db.(sessions := Kept(db, previous, owner))
  {
    if !(previous.Some? && owner.Some? && previous.value in db.sessions && db.sessions[previous.value].account == owner.value) {
      assert Kept(db, previous, owner) == db.sessions;
    } else {
      assert Kept(db, previous, owner) == db.sessions - {previous.value};
    }
  }

  // ---- Challenges. ----

  predicate IssueInput(op: Op)
    requires op.IssueChallenge?
  {
    match op.kind
    case PasskeyRegister => op.handle.Some? && op.wallet.None? && op.viaSession.None?
    case PasskeyLogin => op.handle.None? && op.wallet.None? && op.viaSession.None?
    case PasskeyAdd => op.handle.Some? && op.wallet.None? && op.viaSession.Some?
    case WalletLogin => op.handle.None? && op.wallet.Some? && op.viaSession.None?
    case WalletLink => op.handle.None? && op.wallet.Some? && op.viaSession.Some?
  }

  /** The account a challenge is bound to. */
  function Bound(db: Db, session: Option<Hash>): Option<AccountId> {
    if session.Some? && session.value in db.sessions then Some(db.sessions[session.value].account) else None
  }

  /** An issue stores a five-minute challenge under an unused hash; a bound kind needs a recent session and its own handle. */
  lemma IssueAnswer(db: Db, op: Op, env: Env)
    requires op.IssueChallenge?
    ensures var row := ChallengeRow(op.binding, op.kind, op.challenge, op.handle, Bound(db, op.viaSession), op.wallet,
                                    env.start, env.start + 300_000_000);
      if !IssueInput(op) then Refuses(db, op, env, InputInvalid)
      else if op.viaSession == Some(op.hash) || Taken(db, op.hash) then Refuses(db, op, env, Conflict)
      else if op.viaSession.Some? && !Presents(db, op.viaSession.value, env) then
        Refuses(db, op, env, SessionRefusal(db, op.viaSession.value))
      else if op.kind == PasskeyAdd && Some(db.accounts[db.sessions[op.viaSession.value].account].handle) != op.handle then
        Refuses(db, op, env, SessionInvalid)
      else Answers(db, op, env, db.(challenges := db.challenges[op.hash := row]), ChallengeReply(row))
  {
    if op.viaSession.Some? { PresentsIff(db, op.viaSession.value, env); }
  }

  /** A consumption deletes exactly the challenge presented: same binding, kind and account, and not expired. */
  lemma ConsumeAnswer(db: Db, op: Op, env: Env)
    requires op.ConsumeChallenge?
    ensures var bound := op.kind == PasskeyAdd || op.kind == WalletLink;
      if bound && op.viaSession.None? then Refuses(db, op, env, ChallengeInvalid)
      else if !bound && op.viaSession.Some? then Refuses(db, op, env, InputInvalid)
      else if op.viaSession.Some? && !Presents(db, op.viaSession.value, env) then
        Refuses(db, op, env, SessionRefusal(db, op.viaSession.value))
      else if && op.hash in db.challenges && db.challenges[op.hash].binding == op.binding
              && db.challenges[op.hash].kind == op.kind && env.deleteClock < db.challenges[op.hash].expiresAt
              && (bound ==> db.challenges[op.hash].account == Bound(db, op.viaSession))
      then Answers(db, op, env, db.(challenges := db.challenges - {op.hash}), ChallengeReply(db.challenges[op.hash]))
      else Refuses(db, op, env, ChallengeInvalid)
  {
    if op.viaSession.Some? { PresentsIff(db, op.viaSession.value, env); }
  }

  // ---- Registration and logins. ----

  /** A registration stores the account, its passkey and a passkey session of one day. */
  lemma CreateAnswer(db: Db, op: Op, env: Env)
    requires op.CreatePasskeyAccount?
    ensures var row := SessionRow(env.freshAccount, ByPasskey, env.start, env.start + 86_400_000_000);
      if !Storable(op.credential) then Refuses(db, op, env, InputInvalid)
      else if || op.previous == Some(op.session) || Taken(db, op.session) || HandleTaken(db, op.newHandle)
              || op.id in db.passkeys || env.freshAccount in db.accounts
      then Refuses(db, op, env, Conflict)
      else Answers(db, op, env, db.(
        accounts := db.accounts[env.freshAccount := AccountRow(op.newHandle, Active)],
        passkeys := db.passkeys[op.id := PasskeyRow(env.freshAccount, op.credential)],
        sessions := Kept(db, op.previous, env.previous)[op.session := row]), SessionReply(row))
  {
    HandleTakenIff(db, op.newHandle);
    var withAccount := db.(
      accounts := db.accounts[env.freshAccount := AccountRow(op.newHandle, Active)],
      passkeys := db.passkeys[op.id := PasskeyRow(env.freshAccount, op.credential)]);
    KeptIsRevoked(withAccount, op.previous, env.previous);
    assert Kept(withAccount, op.previous, env.previous) == Kept(db, op.previous, env.previous);
  }

  /** The counter rises, or both are zero; a credential that cannot be backed up is not. */
  predicate LoginInput(op: Op)
    requires op.LoginPasskey?
  {
    && Storable(op.expected) && op.newCounter <= 4_294_967_295
    && !(op.expected.device == SingleDevice && op.backedUp)
    && (op.newCounter > op.expected.counter || (op.newCounter == 0 && op.expected.counter == 0))
  }

  /** The stored credential is still the expected one. */
  predicate Unmoved(db: Db, op: Op)
    requires op.LoginPasskey?
  {
    && op.id in db.passkeys && db.passkeys[op.id].account == op.account
    && var stored := db.passkeys[op.id].credential;
    && stored.device == op.expected.device && stored.counter == op.expected.counter
    && stored.backedUp == op.expected.backedUp && stored.publicKey == op.expected.publicKey
  }

  /** A passkey login moves the counter and the backup flag only, and opens a passkey session of one day. */
  lemma LoginPasskeyAnswer(db: Db, op: Op, env: Env)
    requires op.LoginPasskey?
    ensures (Exec(db, op, env).Ok? <==>
      && LoginInput(op) && op.previous != Some(op.session) && !Taken(db, op.session)
      && ActiveAccount(db, op.account) && Unmoved(db, op))
    ensures Exec(db, op, env).Ok? ==>
      var row := SessionRow(op.account, ByPasskey, env.start, env.start + 86_400_000_000);
      var stored := db.passkeys[op.id].credential;
      Answers(db, op, env, db.(
        passkeys := db.passkeys[op.id := PasskeyRow(op.account,
          Credential(stored.publicKey, op.newCounter, stored.device, op.backedUp, stored.transports))],
        sessions := Kept(db, op.previous, env.previous)[op.session := row]), SessionReply(row))
  {
    KeptIsRevoked(db, op.previous, env.previous);
  }

  lemma LoginPasskeyRefusal(db: Db, op: Op, env: Env)
    requires op.LoginPasskey? && Exec(db, op, env).Err?
    ensures Refuses(db, op, env,
      if !(Storable(op.expected) && op.newCounter <= 4_294_967_295) then InputInvalid
      else if op.previous == Some(op.session) then Conflict
      else if !LoginInput(op) then InputInvalid
      else if Taken(db, op.session) || op.id !in db.passkeys || db.passkeys[op.id].account != op.account then Conflict
      else if op.account in db.accounts && db.accounts[op.account].status == Disabled then AccountDisabled
      else Conflict)
  {}

  /** A login with a known wallet opens a wallet session of its account. */
  lemma KnownWalletAnswer(db: Db, op: Op, env: Env)
    requires op.LoginWallet? && op.address in db.wallets
    ensures var a := db.wallets[op.address];
      var row := SessionRow(a, ByWallet, env.start, env.start + 86_400_000_000);
      if op.previous == Some(op.session) || Taken(db, op.session) then Refuses(db, op, env, Conflict)
      else if a in db.accounts && db.accounts[a].status == Disabled then Refuses(db, op, env, AccountDisabled)
      else if a !in db.accounts then Refuses(db, op, env, Conflict)
      else Answers(db, op, env, db.(sessions := Kept(db, op.previous, env.previous)[op.session := row]), SessionReply(row))
  {
    KeptIsRevoked(db, op.previous, env.previous);
  }

  /** A login with a new wallet stores the wallet, a new account and its wallet session. */
  lemma NewWalletAnswer(db: Db, op: Op, env: Env)
    requires op.LoginWallet? && op.address !in db.wallets
    ensures var row := SessionRow(env.freshAccount, ByWallet, env.start, env.start + 86_400_000_000);
      var leaving := if op.previous.Some? then env.previous else None;
      if op.previous == Some(op.session) || Taken(db, op.session) then Refuses(db, op, env, Conflict)
      else if leaving.Some? && leaving.value !in db.accounts then Refuses(db, op, env, SessionInvalid)
      else if leaving.Some? && db.accounts[leaving.value].status == Disabled then Refuses(db, op, env, AccountDisabled)
      else if env.freshAccount in db.accounts || HandleTaken(db, env.freshHandle) then Refuses(db, op, env, Conflict)
      else Answers(db, op, env, db.(
        accounts := db.accounts[env.freshAccount := AccountRow(env.freshHandle, Active)],
        wallets := db.wallets[op.address := env.freshAccount],
        sessions := Kept(db, op.previous, env.previous)[op.session := row]), SessionReply(row))
  {
    HandleTakenIff(db, env.freshHandle);
    var withWallet := db.(
      accounts := db.accounts[env.freshAccount := AccountRow(env.freshHandle, Active)],
      wallets := db.wallets[op.address := env.freshAccount]);
    KeptIsRevoked(withWallet, op.previous, env.previous);
    assert Kept(withWallet, op.previous, env.previous) == Kept(db, op.previous, env.previous);
  }

  /** A logout always succeeds and deletes at most the presented session. */
  lemma LogoutAnswer(db: Db, op: Op, env: Env)
    requires op.Logout?
    ensures Answers(db, op, env, if env.found then db.(sessions := db.sessions - {op.session}) else db, NoReply)
  {}

  // ---- Additions under a recent session. ----

  /** A passkey is added to the presenting account while it has fewer than ten. */
  lemma AddPasskeyAnswer(db: Db, op: Op, env: Env)
    requires op.AddPasskey?
    ensures if !Storable(op.credential) then Refuses(db, op, env, InputInvalid)
      else if op.id in db.passkeys then Refuses(db, op, env, Conflict)
      else if !Presents(db, op.session, env) then Refuses(db, op, env, SessionRefusal(db, op.session))
      else
        var a := db.sessions[op.session].account;
        if db.accounts[a].handle != op.ownHandle then Refuses(db, op, env, SessionInvalid)
        else if |set c | c in db.passkeys && db.passkeys[c].account == a| >= 10 then Refuses(db, op, env, LimitReached)
        else Answers(db, op, env, db.(passkeys := db.passkeys[op.id := PasskeyRow(a, op.credential)]), NoReply)
  {
    PresentsIff(db, op.session, env);
    if op.session in db.sessions {
      var a := db.sessions[op.session].account;
      assert PasskeysOf(db, a) == set c | c in db.passkeys && db.passkeys[c].account == a;
    }
  }

  /** A wallet is linked to the presenting account while it has fewer than ten. */
  lemma LinkWalletAnswer(db: Db, op: Op, env: Env)
    requires op.LinkWallet?
    ensures if !Presents(db, op.session, env) then Refuses(db, op, env, SessionRefusal(db, op.session))
      else if op.address in db.wallets then Refuses(db, op, env, Conflict)
      else
        var a := db.sessions[op.session].account;
        if |set w | w in db.wallets && db.wallets[w] == a| >= 10 then Refuses(db, op, env, LimitReached)
        else Answers(db, op, env, db.(wallets := db.wallets[op.address := a]), NoReply)
  {
    PresentsIff(db, op.session, env);
    if op.session in db.sessions {
      var a := db.sessions[op.session].account;
      assert WalletsOf(db, a) == set w | w in db.wallets && db.wallets[w] == a;
    }
  }

  // ---- Recovery codes. ----

  /** Eight codes, each once. */
  predicate EightCodes(codes: seq<Hash>) { |codes| == 8 && |Elements(codes)| == 8 }

  /** Some code is already a code of another account. */
  predicate CodeOfOther(db: Db, codes: seq<Hash>, a: AccountId) { exists h :: h in codes && h in db.codes && db.codes[h] != a }

  /** The account's codes replaced by the given ones, all other codes as they were. */
  function Recoded(db: Db, codes: seq<Hash>, a: AccountId): map<Hash, AccountId> {
    map h | h in db.codes.Keys + Elements(codes) && (h in codes || (h in db.codes && db.codes[h] != a)) ::
      if h in codes then a else db.codes[h]
  }

  /**
   * A replacement succeeds exactly with eight distinct codes, none of another account, from a recent session
   * of an active account that was not opened by recovery.
   */
  lemma ReplaceAnswer(db: Db, op: Op, env: Env)
    requires op.ReplaceRecoveryCodes?
    ensures if !EightCodes(op.codes) then Refuses(db, op, env, InputInvalid)
      else if !Presents(db, op.session, env) then Refuses(db, op, env, SessionRefusal(db, op.session))
      else if db.sessions[op.session].via == ByRecovery then Refuses(db, op, env, SessionInvalid)
      else
        var a := db.sessions[op.session].account;
        if CodeOfOther(db, op.codes, a) then Refuses(db, op, env, Conflict)
        else Answers(db, op, env, db.(codes := Recoded(db, op.codes, a)), NoReply)
  {
    DistinctIff(op.codes);
    PresentsIff(db, op.session, env);
    if op.session in db.sessions { RecodedIs(db, op.codes, db.sessions[op.session].account); }
  }

  lemma RecodedIs(db: Db, codes: seq<Hash>, a: AccountId)
    ensures AnyTaken(codes, db.codes - CodesOf(db, a)) <==> CodeOfOther(db, codes, a)
    ensures (db.codes - CodesOf(db, a)) + Minted(codes, a) == Recoded(db, codes, a)
  {
    var cleared := db.codes - CodesOf(db, a);
    assert forall h :: h in cleared <==> h in db.codes && db.codes[h] != a;
    if CodeOfOther(db, codes, a) {
      var h :| h in codes && h in db.codes && db.codes[h] != a;
      assert h in cleared;
    }
  }

  /** A redemption spends the code, ends every session and bound challenge of its account and opens a recovery session. */
  lemma RedeemAnswer(db: Db, op: Op, env: Env)
    requires op.RedeemRecoveryCode?
    ensures if op.code == op.session || Taken(db, op.session) then Refuses(db, op, env, Conflict)
      else if op.code !in db.codes then Refuses(db, op, env, InputInvalid)
      else
        var a := db.codes[op.code];
        var row := SessionRow(a, ByRecovery, env.start, env.start + 86_400_000_000);
        if a !in db.accounts then Refuses(db, op, env, SessionInvalid)
        else if db.accounts[a].status == Disabled then Refuses(db, op, env, AccountDisabled)
        else Answers(db, op, env, db.(
          codes := db.codes - {op.code},
          sessions := (map h | h in db.sessions && db.sessions[h].account != a :: db.sessions[h])[op.session := row],
          challenges := map h | h in db.challenges && db.challenges[h].account != Some(a) :: db.challenges[h]), SessionReply(row))
  {
    if op.code in db.codes { SweptTables(db, db.codes[op.code]); }
  }

  lemma SweptTables(db: Db, a: AccountId)
    ensures db.sessions - SessionsOf(db, a) == map h | h in db.sessions && db.sessions[h].account != a :: db.sessions[h]
    ensures db.challenges - ChallengesOf(db, a) ==
      map h | h in db.challenges && db.challenges[h].account != Some(a) :: db.challenges[h]
  {}

  /** A purge deletes the given rows exactly when all of them have expired. */
  lemma PurgeAnswer(db: Db, op: Op, env: Env)
    requires op.Purge?
    ensures if && (forall h :: h in op.sessions ==> h in db.sessions && db.sessions[h].expiresAt <= env.sqlClock)
               && (forall h :: h in op.challenges ==> h in db.challenges && db.challenges[h].expiresAt <= env.sqlClock)
      then Answers(db, op, env, db.(sessions := db.sessions - op.sessions, challenges := db.challenges - op.challenges), NoReply)
      else Refuses(db, op, env, Database)
  {}

  // ---- From a login to new codes. ----

  /** A session as a registration or a passkey or wallet login stores it. */
  predicate LoggedIn(db: Db, h: Hash, at: Time) {
    && h in db.sessions && ActiveAccount(db, db.sessions[h].account)
    && (db.sessions[h].via == ByPasskey || db.sessions[h].via == ByWallet)
    && db.sessions[h].createdAt == at && db.sessions[h].expiresAt == at + 86_400_000_000
  }

  /** Every clock that judges the session reads less than five minutes after its creation. */
  predicate Soon(env: Env, at: Time) {
    env.sqlClock < at + 300_000_000 && env.jsClock / 1000 < at / 1000 + 300_000
  }

  /** A committed registration or login leaves its session, of its own account, method and instant. */
  lemma LoginOpensSession(db: Db, op: Op, env: Env)
    requires (op.CreatePasskeyAccount? || op.LoginPasskey? || op.LoginWallet?) && Exec(db, op, env).Ok?
    ensures var after := Exec(db, op, env).value.db;
      && LoggedIn(after, op.session, env.start)
      && after.sessions[op.session].via == (if op.LoginWallet? then ByWallet else ByPasskey)
      && after.sessions[op.session].account ==
           (if op.LoginPasskey? then op.account
            else if op.LoginWallet? && op.address in db.wallets then db.wallets[op.address] else env.freshAccount)
  {
    match op
    case CreatePasskeyAccount(_, _, _, _, _) => CreateAnswer(db, op, env);
    case LoginPasskey(_, _, _, _, _, _, _) => LoginPasskeyAnswer(db, op, env);
    case LoginWallet(w, _, _) => if w in db.wallets { KnownWalletAnswer(db, op, env); } else { NewWalletAnswer(db, op, env); }
  }

  /** Within five minutes of a login, and while its account is active, its session can mint eight distinct codes no other account has. */
  lemma LoginCanMint(db: Db, h: Hash, codes: seq<Hash>, env: Env, at: Time)
    requires LoggedIn(db, h, at) && Soon(env, at)
    requires EightCodes(codes) && !CodeOfOther(db, codes, db.sessions[h].account)
    ensures Answers(db, ReplaceRecoveryCodes(h, codes), env, db.(codes := Recoded(db, codes, db.sessions[h].account)), NoReply)
  {
    ReplaceAnswer(db, ReplaceRecoveryCodes(h, codes), env);
    DayInMillis(at);
  }

  lemma DayInMillis(at: Time)
    ensures (at + 86_400_000_000) / 1000 == at / 1000 + 86_400_000
  {}
}
