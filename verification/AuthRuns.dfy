/**
 * What holds over whole histories of committed account operations, starting from empty tables.
 * By the serializability theorem a history here is the commit log of any concurrent run.
 */
module AuthRuns {
  import opened Prelude
  import opened AuthTables
  import opened AuthSpec
  import AuthLocking
  import opened AuthEffects
  import opened AuthInterleaving

  /** The log is a history: each operation succeeds on the tables its predecessors left. */
  predicate History(log: seq<Entry>) { Replay(EMPTY, log).Some? }

  /** The tables after the first `n` operations. */
  function TablesAt(log: seq<Entry>, n: nat): Db
    requires n <= |log|
  {
    match Replay(EMPTY, log[..n]) case Some(db) => db case None => EMPTY
  }

  lemma {:induction false} PrefixIsHistory(log: seq<Entry>, n: nat)
    requires History(log) && n <= |log|
    ensures History(log[..n])
    decreases |log| - n
  {
    if n < |log| {
      PrefixIsHistory(log, n + 1);
      assert log[..n + 1][..n] == log[..n];
    } else {
      assert log[..n] == log;
    }
  }

  lemma StepAt(log: seq<Entry>, n: nat)
    requires History(log) && n < |log|
    ensures Commits(TablesAt(log, n), log[n].op, log[n].env, TablesAt(log, n + 1))
  {
    PrefixIsHistory(log, n + 1);
    PrefixIsHistory(log, n);
    assert log[..n + 1][..n] == log[..n];
  }

  /** Every concurrent run's commit log is a history that ends in the run's tables. */
  lemma ConcurrentRunsAreHistories(k: AuthLocking.Keys, clock: Time, steps: seq<Step>, s: State)
    requires RunsTo(k, Start(EMPTY, clock), steps, s)
    ensures History(s.log) && TablesAt(s.log, |s.log|) == s.db
  {
    InterleavingIsSerial(k, EMPTY, clock, steps, s);
    assert s.log[..|s.log|] == s.log;
  }

  // ---- The table invariant. ----

  /** No hash names both a session and a challenge. */
  predicate NamesDisjoint(db: Db) { db.sessions.Keys !! db.challenges.Keys }

  /** Every child row belongs to an account, and handles identify accounts. */
  ghost predicate Owned(db: Db) {
    && (forall c :: c in db.passkeys ==> db.passkeys[c].account in db.accounts)
    && (forall w :: w in db.wallets ==> db.wallets[w] in db.accounts)
    && (forall h :: h in db.sessions ==> db.sessions[h].account in db.accounts)
    && (forall h :: h in db.codes ==> db.codes[h] in db.accounts)
    && (forall h :: h in db.challenges && db.challenges[h].account.Some? ==> db.challenges[h].account.value in db.accounts)
    && HandlesUnique(db)
  }

  ghost predicate HandlesUnique(db: Db) {
    forall a, b :: a in db.accounts && b in db.accounts && db.accounts[a].handle == db.accounts[b].handle ==> a == b
  }

  ghost predicate Bounded(db: Db) {
    forall a :: |PasskeysOf(db, a)| <= 10 && |WalletsOf(db, a)| <= 10 && |CodesOf(db, a)| <= 8
  }

  /** Rows are of the shape their columns promise; a single-device credential is never backed up. */
  ghost predicate Shaped(db: Db) {
    && (forall c :: c in db.passkeys ==> db.passkeys[c].credential.Acceptable())
    && (forall h :: h in db.challenges ==> ChallengeShape(db.challenges[h]))
    && (forall h :: h in db.sessions ==> db.sessions[h].expiresAt == db.sessions[h].createdAt + ONE_DAY)
  }

  predicate ChallengeShape(row: ChallengeRow) {
    && row.account.Some? == row.kind.NeedsSession()
    && row.handle.Some? == row.kind.NeedsHandle()
    && row.wallet.Some? == row.kind.NeedsWallet()
    && row.expiresAt == row.createdAt + FIVE_MINUTES
  }

  ghost predicate Sound(db: Db) { NamesDisjoint(db) && Owned(db) && Bounded(db) && Shaped(db) }

  lemma AccountsOwned(db: Db, op: Op, env: Env, after: Db)
    requires Owned(db) && AccountsAfter(db, op, env, after)
    ensures db.accounts.Keys <= after.accounts.Keys
    ensures HandlesUnique(after)
  {
    assert forall a :: a in db.accounts ==> db.accounts[a].handle in HandlesIn(db);
  }

  lemma RowsOwned(db: Db, op: Op, env: Env, after: Db)
    requires Owned(db) && AccountsAfter(db, op, env, after) && PasskeysAfter(db, op, env, after) && WalletsAfter(db, op, env, after)
    ensures forall c :: c in after.passkeys ==> after.passkeys[c].account in after.accounts
    ensures forall w :: w in after.wallets ==> after.wallets[w] in after.accounts
  {
    AccountsOwned(db, op, env, after);
  }

  lemma TokensOwned(db: Db, op: Op, env: Env, after: Db)
    requires Owned(db) && AccountsAfter(db, op, env, after) && SessionsAfter(db, op, env, after) && CodesAfter(db, op, env, after)
    ensures forall h :: h in after.sessions ==> after.sessions[h].account in after.accounts
    ensures forall h :: h in after.codes ==> after.codes[h] in after.accounts
  {
    AccountsOwned(db, op, env, after);
  }

  lemma ChallengesOwned(db: Db, op: Op, env: Env, after: Db)
    requires Owned(db) && AccountsAfter(db, op, env, after) && ChallengesAfter(db, op, env, after)
    ensures forall h :: h in after.challenges && after.challenges[h].account.Some? ==>
      after.challenges[h].account.value in after.accounts
  {
    AccountsOwned(db, op, env, after);
  }

  lemma OwnedStep(db: Db, op: Op, env: Env, after: Db)
    requires Owned(db) && AccountsAfter(db, op, env, after) && PasskeysAfter(db, op, env, after)
    requires WalletsAfter(db, op, env, after) && SessionsAfter(db, op, env, after)
    requires ChallengesAfter(db, op, env, after) && CodesAfter(db, op, env, after)
    ensures Owned(after)
  {
    AccountsOwned(db, op, env, after);
    RowsOwned(db, op, env, after);
    TokensOwned(db, op, env, after);
    ChallengesOwned(db, op, env, after);
  }

  lemma InsertOwned(m: map<string, AccountId>, x: string, owner: AccountId, a: AccountId)
    requires x !in m
    ensures OwnedBy(m[x := owner], a) == if a == owner then OwnedBy(m, a) + {x} else OwnedBy(m, a)
  {}

  lemma InsertPasskeyRow(m: map<CredentialId, PasskeyRow>, x: CredentialId, row: PasskeyRow, a: AccountId)
    requires x !in m
    ensures PasskeysIn(m[x := row], a) == if a == row.account then PasskeysIn(m, a) + {x} else PasskeysIn(m, a)
  {}

  lemma NewAccountOwnsNothing(db: Db, a: AccountId)
    requires Owned(db) && a !in db.accounts
    ensures PasskeysOf(db, a) == {} && WalletsOf(db, a) == {}
  {}

  lemma PasskeysBounded(db: Db, op: Op, env: Env, after: Db, a: AccountId)
    requires Owned(db) && AccountsAfter(db, op, env, after) && PasskeysAfter(db, op, env, after)
    requires |PasskeysOf(db, a)| <= 10
    ensures |PasskeysOf(after, a)| <= 10
  {
    match op
    case CreatePasskeyAccount(_, id, credential, _, _) =>
      NewAccountOwnsNothing(db, env.freshAccount);
      InsertPasskeyRow(db.passkeys, id, PasskeyRow(env.freshAccount, credential), a);
    case AddPasskey(session, id, credential, _) =>
      InsertPasskeyRow(db.passkeys, id, PasskeyRow(db.sessions[session].account, credential), a);
    case _ =>
      assert PasskeysOf(after, a) == PasskeysOf(db, a);
  }

  lemma WalletsBounded(db: Db, op: Op, env: Env, after: Db, a: AccountId)
    requires Owned(db) && AccountsAfter(db, op, env, after) && WalletsAfter(db, op, env, after)
    requires |WalletsOf(db, a)| <= 10
    ensures |WalletsOf(after, a)| <= 10
  {
    match op
    case LoginWallet(w, _, _) =>
      if w !in db.wallets {
        NewAccountOwnsNothing(db, env.freshAccount);
        InsertOwned(db.wallets, w, env.freshAccount, a);
      }
    case LinkWallet(session, w) => InsertOwned(db.wallets, w, db.sessions[session].account, a);
    case _ =>
  }

  /** A replacement leaves its account exactly the eight codes it brings. */
  lemma ReplacedCodes(db: Db, op: Op, env: Env, after: Db)
    requires op.ReplaceRecoveryCodes? && CodesAfter(db, op, env, after)
    ensures CodesOf(after, db.sessions[op.session].account) == Elements(op.codes) && |Elements(op.codes)| == 8
  {
    DistinctIff(op.codes);
  }

  lemma CodesOfOthers(db: Db, op: Op, env: Env, after: Db, a: AccountId)
    requires CodesAfter(db, op, env, after)
    requires op.ReplaceRecoveryCodes? ==> db.sessions[op.session].account != a
    ensures CodesOf(after, a) ==
      if op.RedeemRecoveryCode? && op.code in db.codes then CodesOf(db, a) - {op.code} else CodesOf(db, a)
  {}

  lemma CodesBounded(db: Db, op: Op, env: Env, after: Db, a: AccountId)
    requires CodesAfter(db, op, env, after) && |CodesOf(db, a)| <= 8
    ensures |CodesOf(after, a)| <= 8
  {
    if op.ReplaceRecoveryCodes? && db.sessions[op.session].account == a {
      ReplacedCodes(db, op, env, after);
    } else {
      CodesOfOthers(db, op, env, after, a);
    }
  }

  lemma ShapedStep(db: Db, op: Op, env: Env, after: Db)
    requires Shaped(db) && NamesDisjoint(db) && PasskeysAfter(db, op, env, after)
    requires SessionsAfter(db, op, env, after) && ChallengesAfter(db, op, env, after)
    ensures Shaped(after) && NamesDisjoint(after)
  {}

  lemma SoundStep(db: Db, op: Op, env: Env, after: Db)
    requires Sound(db) && Commits(db, op, env, after)
    ensures Sound(after)
  {
    AccountsEffect(db, op, env, after);
    PasskeysEffect(db, op, env, after);
    WalletsEffect(db, op, env, after);
    SessionsEffect(db, op, env, after);
    ChallengesEffect(db, op, env, after);
    CodesEffect(db, op, env, after);
    OwnedStep(db, op, env, after);
    ShapedStep(db, op, env, after);
    forall a ensures |PasskeysOf(after, a)| <= 10 && |WalletsOf(after, a)| <= 10 && |CodesOf(after, a)| <= 8 {
      PasskeysBounded(db, op, env, after, a);
      WalletsBounded(db, op, env, after, a);
      CodesBounded(db, op, env, after, a);
    }
  }

  /** Every table state of every history is sound. */
  lemma {:induction false} HistoriesAreSound(log: seq<Entry>, n: nat)
    requires History(log) && n <= |log|
    ensures Sound(TablesAt(log, n))
  {
    if n > 0 {
      HistoriesAreSound(log, n - 1);
      StepAt(log, n - 1);
      SoundStep(TablesAt(log, n - 1), log[n - 1].op, log[n - 1].env, TablesAt(log, n));
    } else {
      assert forall a :: PasskeysOf(EMPTY, a) == {} && WalletsOf(EMPTY, a) == {} && CodesOf(EMPTY, a) == {};
    }
  }
}
