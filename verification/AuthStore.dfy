/**
 * The repository as the program writes it: a store whose operations read and change the tables
 * statement by statement, fail with a code at the first bad check, and are rolled back on failure.
 * Each is proved to be the atomic operation of the specification when it runs alone.
 */
module AuthStoreModel {
  import opened Prelude
  import opened AuthTables
  import opened AuthSpec
  import opened AuthLocking
  import opened AuthPlans
  import Lex

  /** What an unlocked lookup of a session's account answers to a transaction running alone. */
  function Owner(db: Db, session: Option<Hash>): Option<AccountId> {
    if session.Some? && session.value in db.sessions then Some(db.sessions[session.value].account) else None
  }

  /** The specified transition happened: its tables and reply, or its error and nothing changed. */
  predicate Settles(spec: Result<Committed>, before: Db, reply: Result<Reply>, after: Db) {
    match spec
    case Ok(c) => reply == Ok(c.reply) && after == c.db
    case Err(e) => reply == Err(e) && after == before
  }

  /** What remains of a login once the validators and row checks have passed. */
  function LoginVerdict(db: Db, op: Op, env: Env): Result<Committed>
    requires op.LoginPasskey? && op.id in db.passkeys
  {
    var row := db.passkeys[op.id];
    if !SameSnapshot(row, op) then Err(Conflict)
    else
      var updated := row.(credential := row.credential.(counter := op.newCounter, backedUp := op.backedUp));
      var revoked := AuthSpec.RevokePrevious(db, op.previous, env.previous);
      Ok(WithSession(revoked.(passkeys := db.passkeys[op.id := updated]), op.session,
                     NewSession(op.account, ByPasskey, env)))
  }

  lemma ElementsOfSnoc(s: seq<string>, x: string)
    ensures Elements(s + [x]) == Elements(s) + {x}
  {}

  lemma InsertedElements(s: seq<string>, at: nat, x: string)
    requires at <= |s|
    ensures Elements(s[..at] + [x] + s[at..]) == Elements(s) + {x}
  {
    assert s == s[..at] + s[at..];
  }

  lemma MintedSnoc(base: map<Hash, AccountId>, codes: seq<Hash>, x: Hash, a: AccountId)
    ensures base + Minted(codes + [x], a) == (base + Minted(codes, a))[x := a]
  {}

  /** The next of distinct codes is not among those before it, so only the old table can hold it. */
  lemma NextIsNew(codes: seq<Hash>, i: nat, taken: map<Hash, AccountId>)
    requires Distinct(codes) && i < |codes|
    ensures codes[i] !in codes[..i] && codes[..i + 1] == codes[..i] + [codes[i]]
    ensures AnyTaken(codes[..i + 1], taken) <==> AnyTaken(codes[..i], taken) || codes[i] in taken
  {
    assert codes[..i + 1] == codes[..i] + [codes[i]];
    assert codes[i] in codes[..i + 1];
  }

  class AuthStore {
    var accounts: map<AccountId, AccountRow>
    var passkeys: map<CredentialId, PasskeyRow>
    var wallets: map<Address, AccountId>
    var sessions: map<Hash, SessionRow>
    var challenges: map<Hash, ChallengeRow>
    var codes: map<Hash, AccountId>

    constructor ()
      ensures Tables() == EMPTY
    {
      accounts, passkeys, wallets, sessions, challenges, codes := map[], map[], map[], map[], map[], map[];
    }

    function Tables(): Db
      reads this
    {
      Db(accounts, passkeys, wallets, sessions, challenges, codes)
    }

    method Rollback(saved: Db)
      modifies this
      ensures Tables() == saved
    {
      accounts, passkeys, wallets := saved.accounts, saved.passkeys, saved.wallets;
      sessions, challenges, codes := saved.sessions, saved.challenges, saved.codes;
    }

    // ---- Internal helpers. ----

    method AssertHashUnused(h: Hash) returns (r: Result<()>)
      ensures r == if HashUnused(Tables(), h) then Ok(()) else Err(Conflict)
    {
      if h in sessions { return Err(Conflict); }
      if h in challenges { return Err(Conflict); }
      return Ok(());
    }

    method LockAccount(a: AccountId) returns (r: Result<AccountRow>)
      ensures r == AuthSpec.LockAccount(Tables(), a)
    {
      if a !in accounts { return Err(SessionInvalid); }
      var row := accounts[a];
      if row.status != Active { return Err(AccountDisabled); }
      return Ok(row);
    }

    method LockFreshSession(h: Hash, env: Env) returns (r: Result<SessionRow>)
      ensures r == FreshSession(Tables(), h, env)
    {
      if h !in sessions { return Err(SessionInvalid); }
      var a := sessions[h].account;
      var account :- LockAccount(a);
      var row := sessions[h];
      if !(row.expiresAt > env.sqlClock && row.createdAt > env.sqlClock - FIVE_MINUTES) { return Err(SessionInvalid); }
      var now := env.jsClock / 1000;
      if !(row.expiresAt / 1000 > now) { return Err(SessionInvalid); }
      if !(row.createdAt / 1000 > now - 5 * 60 * 1000) { return Err(SessionInvalid); }
      return Ok(row);
    }

    method ResolveSessionAccount(session: Option<Hash>) returns (a: Option<AccountId>)
      ensures a == Owner(Tables(), session)
    {
      if session.None? || session.value !in sessions { return None; }
      return Some(sessions[session.value].account);
    }

    /** `DELETE FROM sessions WHERE token_hash = $1 AND account_id = $2`. */
    method RevokePrevious(previous: Option<Hash>, account: Option<AccountId>)
      modifies this
      ensures Tables() == AuthSpec.RevokePrevious(old(Tables()), previous, account)
    {
      if previous.Some? && account.Some? && previous.value in sessions && sessions[previous.value].account == account.value {
        sessions := sessions - {previous.value};
      }
    }

    method InsertAccount(a: AccountId, handle: Handle) returns (r: Result<()>)
      modifies this`accounts
      ensures r == if a in old(accounts) || handle in HandlesIn(old(Tables())) then Err(Conflict) else Ok(())
      ensures accounts == if r.Ok? then old(accounts)[a := AccountRow(handle, Active)] else old(accounts)
    {
      if a in accounts || handle in HandlesIn(Tables()) { return Err(Conflict); }
      accounts := accounts[a := AccountRow(handle, Active)];
      return Ok(());
    }

    method InsertSession(a: AccountId, h: Hash, via: SessionMethod, env: Env) returns (reply: Reply)
      modifies this`sessions
      ensures sessions == old(sessions)[h := NewSession(a, via, env)] && reply == SessionReply(NewSession(a, via, env))
    {
      var row := NewSession(a, via, env);
      sessions := sessions[h := row];
      return SessionReply(row);
    }

    /** Where an id belongs among the ids before it. */
    static method PlaceOf(order: seq<AccountId>, id: AccountId) returns (at: nat)
      ensures at <= |order| && forall p :: 0 <= p < at ==> Lex.Less(order[p], id)
      ensures at < |order| ==> !Lex.Less(order[at], id)
    {
      at := 0;
      while at < |order| && Lex.Less(order[at], id)
        invariant at <= |order| && forall p :: 0 <= p < at ==> Lex.Less(order[p], id)
      {
        at := at + 1;
      }
    }

    /** `[...new Set(ids)].sort()`, the order in which accounts are locked. */
    static method LockAccountsSorted(ids: seq<AccountId>) returns (order: seq<AccountId>)
      ensures Elements(order) == Elements(ids)
      ensures Lex.Ascending(order)
    {
      order := [];
      Lex.IsStrictTotal();
      for i := 0 to |ids|
        invariant Elements(order) == Elements(ids[..i])
        invariant Lex.Ascending(order)
      {
        assert ids[..i + 1] == ids[..i] + [ids[i]];
        var at := PlaceOf(order, ids[i]);
        if at == |order| || order[at] != ids[i] {
          ghost var was := order;
          order := order[..at] + [ids[i]] + order[at..];
          InsertedElements(was, at, ids[i]);
        }
        ElementsOfSnoc(ids[..i], ids[i]);
      }
      assert ids[..|ids|] == ids;
    }

    // ---- Operations. ----

    method IssueChallenge(input: Op, env: Env) returns (reply: Result<Reply>)
      requires input.IssueChallenge?
      modifies this
      ensures Settles(ExecIssue(old(Tables()), input, env), old(Tables()), reply, Tables())
    {
      var kind, session := input.kind, input.viaSession;
      if kind.NeedsHandle() != input.handle.Some? { return Err(InputInvalid); }
      if kind.NeedsWallet() != input.wallet.Some? { return Err(InputInvalid); }
      if kind.NeedsSession() != session.Some? { return Err(InputInvalid); }
      if session == Some(input.hash) { return Err(Conflict); }
      var _ :- AssertHashUnused(input.hash);
      var account: Option<AccountId> := None;
      if session.Some? {
        var live :- LockFreshSession(session.value, env);
        account := Some(live.account);
        if kind.NeedsHandle() && input.handle != Some(accounts[live.account].handle) { return Err(SessionInvalid); }
      }
      var row := ChallengeRow(input.binding, kind, input.challenge, input.handle, account, input.wallet,
                              env.start, env.start + FIVE_MINUTES);
      challenges := challenges[input.hash := row];
      return Ok(ChallengeReply(row));
    }

    method ConsumeChallenge(input: Op, env: Env) returns (reply: Result<Reply>)
      requires input.ConsumeChallenge?
      modifies this
      ensures Settles(ExecConsume(old(Tables()), input, env), old(Tables()), reply, Tables())
    {
      var kind, session := input.kind, input.viaSession;
      if kind.NeedsSession() {
        if session.None? { return Err(ChallengeInvalid); }
      } else if session.Some? {
        return Err(InputInvalid);
      }
      var bound: Option<AccountId> := None;
      if session.Some? {
        var live :- LockFreshSession(session.value, env);
        bound := Some(live.account);
      }
      if input.hash !in challenges { return Err(ChallengeInvalid); }
      var row := challenges[input.hash];
      if row.binding != input.binding || row.kind != kind { return Err(ChallengeInvalid); }
      if row.expiresAt <= env.deleteClock { return Err(ChallengeInvalid); }
      if bound.Some? && row.account != bound { return Err(ChallengeInvalid); }
      challenges := challenges - {input.hash};
      return Ok(ChallengeReply(row));
    }

    method CreatePasskeyAccount(input: Op, env: Env) returns (reply: Result<Reply>)
      requires input.CreatePasskeyAccount?
      modifies this
      ensures Settles(ExecCreate(old(Tables()), input, env.(previous := Owner(old(Tables()), input.previous))), old(Tables()), reply, Tables())
    {
      var saved := Tables();
      if !input.credential.Acceptable() { return Err(InputInvalid); }
      if input.previous == Some(input.session) { return Err(Conflict); }
      var _ :- AssertHashUnused(input.session);
      if input.newHandle in HandlesIn(Tables()) { return Err(Conflict); }
      if input.id in passkeys { return Err(Conflict); }
      var previousAccount := ResolveSessionAccount(input.previous);
      var inserted := InsertAccount(env.freshAccount, input.newHandle);
      if inserted.Err? {
        Rollback(saved);
        return Err(inserted.error);
      }
      passkeys := passkeys[input.id := PasskeyRow(env.freshAccount, input.credential)];
      RevokePrevious(input.previous, previousAccount);
      var issued := InsertSession(env.freshAccount, input.session, ByPasskey, env);
      return Ok(issued);
    }

    /** The validators and the checks on the stored rows, before anything is written. */
    method CheckLogin(input: Op, env: Env) returns (r: Result<()>)
      requires input.LoginPasskey?
      ensures r.Err? ==> ExecLoginPasskey(Tables(), input, env) == Err(r.error)
      ensures r.Ok? ==> input.id in passkeys && ExecLoginPasskey(Tables(), input, env) == LoginVerdict(Tables(), input, env)
    {
      var expected, account := input.expected, input.account;
      if !expected.Acceptable() || input.newCounter > MAX_COUNTER { return Err(InputInvalid); }
      if input.previous == Some(input.session) { return Err(Conflict); }
      if expected.device.SingleDevice? && input.backedUp { return Err(InputInvalid); }
      if (expected.counter != 0 || input.newCounter != 0) && input.newCounter <= expected.counter { return Err(InputInvalid); }
      var _ :- AssertHashUnused(input.session);
      if input.id !in passkeys || passkeys[input.id].account != account { return Err(Conflict); }
      if account !in accounts { return Err(Conflict); }
      if accounts[account].status != Active { return Err(AccountDisabled); }
      return Ok(());
    }

    method LoginPasskey(input: Op, env: Env) returns (reply: Result<Reply>)
      requires input.LoginPasskey?
      modifies this
      ensures Settles(ExecLoginPasskey(old(Tables()), input, env.(previous := Owner(old(Tables()), input.previous))), old(Tables()), reply, Tables())
    {
      var saved := Tables();
      var previousAccount := ResolveSessionAccount(input.previous);
      var _ :- CheckLogin(input, env.(previous := previousAccount));
      // The previous session goes before the snapshot is compared; a mismatch brings it back.
      RevokePrevious(input.previous, previousAccount);
      var advanced := CompareAndSet(input);
      if advanced.Err? {
        Rollback(saved);
        return Err(advanced.error);
      }
      var issued := InsertSession(input.account, input.session, ByPasskey, env);
      return Ok(issued);
    }

    /** Set the counter and backup state if the stored credential is still the expected one. */
    method CompareAndSet(input: Op) returns (r: Result<()>)
      requires input.LoginPasskey?
      modifies this`passkeys
      ensures r == if input.id in old(passkeys) && SameSnapshot(old(passkeys)[input.id], input) then Ok(()) else Err(Conflict)
      ensures r.Ok? ==> passkeys == old(passkeys)[input.id :=
        PasskeyRow(input.account, old(passkeys)[input.id].credential.(counter := input.newCounter, backedUp := input.backedUp))]
    {
      if input.id !in passkeys { return Err(Conflict); }
      var stored, expected := passkeys[input.id].credential, input.expected;
      if passkeys[input.id].account != input.account { return Err(Conflict); }
      if stored.device != expected.device { return Err(Conflict); }
      if stored.counter != expected.counter { return Err(Conflict); }
      if stored.backedUp != expected.backedUp { return Err(Conflict); }
      if stored.publicKey != expected.publicKey { return Err(Conflict); }
      passkeys := passkeys[input.id :=
        PasskeyRow(input.account, stored.(counter := input.newCounter, backedUp := input.backedUp))];
      return Ok(());
    }

    /** The account a known wallet belongs to. */
    method KnownWallet(address: Address) returns (r: Result<AccountId>)
      requires address in wallets
      ensures r == (
        if wallets[address] !in accounts then Err(Conflict)
        else if accounts[wallets[address]].status.Disabled? then Err(AccountDisabled)
        else Ok(wallets[address]))
    {
      var account := wallets[address];
      if account !in accounts { return Err(Conflict); }
      if accounts[account].status != Active { return Err(AccountDisabled); }
      return Ok(account);
    }

    /** A new account for a new wallet, after locking the account of the session to be replaced. */
    method RegisterWallet(address: Address, env: Env, previousAccount: Option<AccountId>) returns (r: Result<AccountId>)
      modifies this`accounts, this`wallets
      ensures r == (
        if previousAccount.Some? && AuthSpec.LockAccount(old(Tables()), previousAccount.value).Err?
        then Err(AuthSpec.LockAccount(old(Tables()), previousAccount.value).error)
        else if env.freshAccount in old(accounts) || env.freshHandle in HandlesIn(old(Tables())) then Err(Conflict)
        else Ok(env.freshAccount))
      ensures r.Err? ==> Tables() == old(Tables())
      ensures r.Ok? ==> accounts == old(accounts)[env.freshAccount := AccountRow(env.freshHandle, Active)]
      ensures r.Ok? ==> wallets == old(wallets)[address := env.freshAccount]
    {
      if previousAccount.Some? {
        var _ :- LockAccount(previousAccount.value);
      }
      var _ :- InsertAccount(env.freshAccount, env.freshHandle);
      wallets := wallets[address := env.freshAccount];
      return Ok(env.freshAccount);
    }

    method LoginWallet(input: Op, env: Env) returns (reply: Result<Reply>)
      requires input.LoginWallet?
      modifies this
      ensures Settles(ExecLoginWallet(old(Tables()), input, env.(previous := Owner(old(Tables()), input.previous))), old(Tables()), reply, Tables())
    {
      if input.previous == Some(input.session) { return Err(Conflict); }
      var _ :- AssertHashUnused(input.session);
      var previousAccount := ResolveSessionAccount(input.previous);
      var account: AccountId;
      if input.address in wallets {
        account :- KnownWallet(input.address);
      } else {
        account :- RegisterWallet(input.address, env, previousAccount);
      }
      RevokePrevious(input.previous, previousAccount);
      var issued := InsertSession(account, input.session, ByWallet, env);
      return Ok(issued);
    }

    method Logout(session: Hash, env: Env) returns (reply: Result<Reply>)
      modifies this
      ensures Settles(Exec(old(Tables()), Op.Logout(session), env.(found := session in old(sessions))), old(Tables()), reply, Tables())
    {
      sessions := sessions - {session};
      return Ok(NoReply);
    }

    method AddPasskey(input: Op, env: Env) returns (reply: Result<Reply>)
      requires input.AddPasskey?
      modifies this
      ensures Settles(ExecAddPasskey(old(Tables()), input, env), old(Tables()), reply, Tables())
    {
      if !input.credential.Acceptable() { return Err(InputInvalid); }
      if input.id in passkeys { return Err(Conflict); }
      var live :- LockFreshSession(input.session, env);
      var relocked := LockAccount(live.account);  // a row this transaction has locked and found active
      if relocked.value.handle != input.ownHandle { return Err(SessionInvalid); }
      if |PasskeysOf(Tables(), live.account)| >= MAX_CREDENTIALS_PER_ACCOUNT { return Err(LimitReached); }
      passkeys := passkeys[input.id := PasskeyRow(live.account, input.credential)];
      return Ok(NoReply);
    }

    method LinkWallet(input: Op, env: Env) returns (reply: Result<Reply>)
      requires input.LinkWallet?
      modifies this
      ensures Settles(ExecLinkWallet(old(Tables()), input, env), old(Tables()), reply, Tables())
    {
      var live :- LockFreshSession(input.session, env);
      var relocked := LockAccount(live.account);
      assert relocked.Ok?;
      if input.address in wallets { return Err(Conflict); }
      if |WalletsOf(Tables(), live.account)| >= MAX_WALLETS_PER_ACCOUNT { return Err(LimitReached); }
      wallets := wallets[input.address := live.account];
      return Ok(NoReply);
    }

    method ReplaceRecoveryCodes(input: Op, env: Env) returns (reply: Result<Reply>)
      requires input.ReplaceRecoveryCodes?
      modifies this
      ensures Settles(ExecReplace(old(Tables()), input, env), old(Tables()), reply, Tables())
    {
      var saved := Tables();
      DistinctIff(input.codes);
      if |input.codes| != REQUIRED_RECOVERY_CODES { return Err(InputInvalid); }
      if |Elements(input.codes)| != REQUIRED_RECOVERY_CODES { return Err(InputInvalid); }
      var live :- LockFreshSession(input.session, env);
      if live.via == ByRecovery { return Err(SessionInvalid); }
      var relocked := LockAccount(live.account);
      assert relocked.Ok?;
      codes := codes - CodesOf(Tables(), live.account);
      var inserted := InsertCodes(live.account, input.codes);
      if inserted.Err? {
        Rollback(saved);
        return Err(inserted.error);
      }
      return Ok(NoReply);
    }

    /** Insert the codes one at a time; a hash that is taken stops the loop. */
    method InsertCodes(account: AccountId, hashes: seq<Hash>) returns (r: Result<()>)
      requires Distinct(hashes)
      modifies this`codes
      ensures r == if AnyTaken(hashes, old(codes)) then Err(Conflict) else Ok(())
      ensures r.Ok? ==> codes == old(codes) + Minted(hashes, account)
    {
      for i := 0 to |hashes|
        invariant codes == old(codes) + Minted(hashes[..i], account)
        invariant !AnyTaken(hashes[..i], old(codes))
      {
        NextIsNew(hashes, i, old(codes));
        if hashes[i] in codes {
          assert hashes[i] in hashes;
          return Err(Conflict);
        }
        codes := codes[hashes[i] := account];
        MintedSnoc(old(codes), hashes[..i], hashes[i], account);
      }
      assert hashes[..|hashes|] == hashes;
      return Ok(());
    }

    method RedeemRecoveryCode(input: Op, env: Env) returns (reply: Result<Reply>)
      requires input.RedeemRecoveryCode?
      modifies this
      ensures Settles(ExecRedeem(old(Tables()), input, env), old(Tables()), reply, Tables())
    {
      if input.code == input.session { return Err(Conflict); }
      var _ :- AssertHashUnused(input.session);
      if input.code !in codes { return Err(InputInvalid); }
      var account := codes[input.code];
      var _ :- LockAccount(account);
      codes := codes - {input.code};
      sessions := sessions - SessionsOf(Tables(), account);
      challenges := challenges - ChallengesOf(Tables(), account);
      var issued := InsertSession(account, input.session, ByRecovery, env);
      return Ok(issued);
    }
  }

  // ---- The sorted lock order is the one the interleaved transactions follow. ----

  function LockEach(order: seq<AccountId>, rest: Plan): Plan {
    if order == [] then rest else Do(LockAccountRow(order[0]), LockEach(order[1..], rest))
  }

  /** The ascending list of the accounts at hand. */
  function AtHand(a: Option<AccountId>, b: Option<AccountId>): seq<AccountId> {
    match (a, b)
    case (None, None) => []
    case (Some(x), None) => [x]
    case (None, Some(y)) => [y]
    case (Some(x), Some(y)) => if x == y then [x] else if Lex.Less(x, y) then [x, y] else [y, x]
  }

  /** Whatever ascending list the store computes, locking it in order is the planned lock sequence. */
  lemma SortedOrderIsPlanned(a: Option<AccountId>, b: Option<AccountId>, ids: seq<AccountId>, order: seq<AccountId>, rest: Plan)
    requires ids == (if a.Some? then [a.value] else []) + (if b.Some? then [b.value] else [])
    requires Elements(order) == Elements(ids) && Lex.Ascending(order)
    ensures LockEach(order, rest) == LockSorted(a, b, rest)
  {
    Lex.IsStrictTotal();
    assert Lex.Ascending(AtHand(a, b));
    assert Elements(AtHand(a, b)) == Elements(ids);
    Lex.AscendingIsUnique(order, AtHand(a, b));
    LockEachAtHand(a, b, rest);
  }

  lemma LockEachAtHand(a: Option<AccountId>, b: Option<AccountId>, rest: Plan)
    ensures LockEach(AtHand(a, b), rest) == LockSorted(a, b, rest)
  {
    var l := AtHand(a, b);
    if |l| == 1 { assert LockEach(l[1..], rest) == rest; }
    if |l| == 2 { assert l[1..] == [l[1]] && LockEach([l[1]], rest) == Do(LockAccountRow(l[1]), LockEach([l[1]][1..], rest)); }
  }
}
