/** One-use authority over whole histories: counters, challenges, recovery codes, recovery sessions. */
module AuthHistory {
  import opened Prelude
  import opened AuthTables
  import opened AuthSpec
  import opened AuthAnswers
  import opened AuthEffects
  import opened AuthInterleaving
  import opened AuthRuns

  // ---- Passkey counters. ----

  /** A later state of the same credential. */
  predicate LaterState(before: PasskeyRow, after: PasskeyRow) {
    && after.account == before.account && after.credential.counter >= before.credential.counter
    && after.credential.publicKey == before.credential.publicKey
    && after.credential.device == before.credential.device
    && after.credential.transports == before.credential.transports
  }

  lemma PasskeyStep(log: seq<Entry>, n: nat, id: CredentialId)
    requires History(log) && n < |log| && id in TablesAt(log, n).passkeys
    ensures id in TablesAt(log, n + 1).passkeys
    ensures LaterState(TablesAt(log, n).passkeys[id], TablesAt(log, n + 1).passkeys[id])
  {
    StepAt(log, n);
    PasskeysEffect(TablesAt(log, n), log[n].op, log[n].env, TablesAt(log, n + 1));
  }

  /** A stored passkey is never lost or rebound, and its counter never decreases. */
  lemma {:induction false} CountersNeverFall(log: seq<Entry>, i: nat, j: nat, id: CredentialId)
    requires History(log) && i <= j <= |log| && id in TablesAt(log, i).passkeys
    ensures id in TablesAt(log, j).passkeys
    ensures LaterState(TablesAt(log, i).passkeys[id], TablesAt(log, j).passkeys[id])
    decreases j - i
  {
    if i < j {
      CountersNeverFall(log, i, j - 1, id);
      PasskeyStep(log, j - 1, id);
    }
  }

  /** Each login strictly raises the counter, unless it was zero and stays zero. */
  lemma LoginRaisesCounter(log: seq<Entry>, n: nat)
    requires History(log) && n < |log| && log[n].op.LoginPasskey?
    ensures log[n].op.id in TablesAt(log, n).passkeys && log[n].op.id in TablesAt(log, n + 1).passkeys
    ensures var before := TablesAt(log, n).passkeys[log[n].op.id].credential.counter;
            var after := TablesAt(log, n + 1).passkeys[log[n].op.id].credential.counter;
            after == log[n].op.newCounter && before == log[n].op.expected.counter && (before < after || before == after == 0)
  {
    StepAt(log, n);
    PasskeysEffect(TablesAt(log, n), log[n].op, log[n].env, TablesAt(log, n + 1));
  }

  /** Of the logins that present one snapshot with a nonzero new counter, at most one ever commits. */
  lemma OneLoginPerSnapshot(log: seq<Entry>, i: nat, j: nat)
    requires History(log) && i < j < |log| && log[i].op.LoginPasskey? && log[j].op.LoginPasskey?
    requires log[i].op.id == log[j].op.id && log[i].op.newCounter != 0
    ensures log[i].op.expected.counter < log[i].op.newCounter <= log[j].op.expected.counter
  {
    LoginRaisesCounter(log, i);
    CountersNeverFall(log, i + 1, j, log[i].op.id);
    LoginRaisesCounter(log, j);
  }

  /** After a login commits, its own snapshot is accepted again exactly when it changed nothing, at counter zero. */
  lemma SnapshotSurvivesIff(log: seq<Entry>, n: nat)
    requires History(log) && n < |log| && log[n].op.LoginPasskey?
    ensures log[n].op.id in TablesAt(log, n + 1).passkeys
    ensures SameSnapshot(TablesAt(log, n + 1).passkeys[log[n].op.id], log[n].op) <==>
      log[n].op.newCounter == 0 && log[n].op.backedUp == log[n].op.expected.backedUp
  {
    StepAt(log, n);
    PasskeysEffect(TablesAt(log, n), log[n].op, log[n].env, TablesAt(log, n + 1));
  }

  // ---- Challenges. ----

  predicate Issues(e: Entry, h: Hash) { e.op.IssueChallenge? && e.op.hash == h }
  predicate Consumes(e: Entry, h: Hash) { e.op.ConsumeChallenge? && e.op.hash == h }

  /** Entry `i` issued the challenge `row` named `h`, and nothing issued or consumed `h` between `i` and `n`. */
  ghost predicate LastIssue(log: seq<Entry>, i: nat, n: nat, h: Hash, row: ChallengeRow) {
    && i < n <= |log| && Issues(log[i], h)
    && row == IssuedRow(log[i].op, log[i].env, Presenter(TablesAt(log, i), log[i].op.viaSession))
    && forall m :: i < m < n ==> !Issues(log[m], h) && !Consumes(log[m], h)
  }

  lemma ChallengeStep(db: Db, op: Op, env: Env, after: Db, h: Hash)
    requires ChallengesAfter(db, op, env, after) && h in after.challenges
    ensures (op.IssueChallenge? && op.hash == h) ==>
      after.challenges[h] == IssuedRow(op, env, Presenter(db, op.viaSession))
    ensures !(op.IssueChallenge? && op.hash == h) ==>
      h in db.challenges && db.challenges[h] == after.challenges[h] && !(op.ConsumeChallenge? && op.hash == h)
  {}

  lemma ChallengeBefore(log: seq<Entry>, n: nat, h: Hash)
    requires History(log) && n < |log| && h in TablesAt(log, n + 1).challenges
    ensures var db, after := TablesAt(log, n), TablesAt(log, n + 1);
      if Issues(log[n], h) then after.challenges[h] == IssuedRow(log[n].op, log[n].env, Presenter(db, log[n].op.viaSession))
      else h in db.challenges && db.challenges[h] == after.challenges[h] && !Consumes(log[n], h)
  {
    StepAt(log, n);
    ChallengesEffect(TablesAt(log, n), log[n].op, log[n].env, TablesAt(log, n + 1));
    ChallengeStep(TablesAt(log, n), log[n].op, log[n].env, TablesAt(log, n + 1), h);
  }

  /** Every stored challenge has an issue that nothing has used since. */
  lemma {:induction false} ChallengeOrigin(log: seq<Entry>, n: nat, h: Hash) returns (i: nat)
    requires History(log) && n <= |log| && h in TablesAt(log, n).challenges
    ensures LastIssue(log, i, n, h, TablesAt(log, n).challenges[h])
  {
    assert n > 0 by { assert TablesAt(log, 0) == EMPTY; }
    ChallengeBefore(log, n - 1, h);
    if Issues(log[n - 1], h) { i := n - 1; } else { i := ChallengeOrigin(log, n - 1, h); }
  }

  /** The session is stored, of an active account, unexpired and at most five minutes old, on both clocks. */
  predicate LiveSession(db: Db, session: Option<Hash>, env: Env) {
    session.Some? && Presents(db, session.value, env)
  }

  lemma BoundIsLive(db: Db, op: Op, env: Env, after: Db)
    requires Commits(db, op, env, after) && (op.IssueChallenge? || op.ConsumeChallenge?) && op.kind.NeedsSession()
    ensures LiveSession(db, op.viaSession, env)
  {
    if op.IssueChallenge? { IssueAnswer(db, op, env); } else { ConsumeAnswer(db, op, env); }
  }

  /**
   * A consumption answers an issue of the same challenge, with the same binding and kind, before
   * its five minutes are over, and for a bound kind both with live sessions of one account.
   */
  lemma ConsumptionAnswersIssue(log: seq<Entry>, n: nat) returns (i: nat)
    requires History(log) && n < |log| && log[n].op.ConsumeChallenge?
    ensures i < n && Issues(log[i], log[n].op.hash)
    ensures forall m :: i < m < n ==> !Issues(log[m], log[n].op.hash) && !Consumes(log[m], log[n].op.hash)
    ensures log[n].op.binding == log[i].op.binding && log[n].op.kind == log[i].op.kind
    ensures log[n].env.deleteClock < log[i].env.start + 300_000_000
    ensures log[n].op.kind.NeedsSession() ==>
      && Presenter(TablesAt(log, i), log[i].op.viaSession).Some?
      && Presenter(TablesAt(log, n), log[n].op.viaSession) == Presenter(TablesAt(log, i), log[i].op.viaSession)
      && LiveSession(TablesAt(log, i), log[i].op.viaSession, log[i].env)
      && LiveSession(TablesAt(log, n), log[n].op.viaSession, log[n].env)
  {
    StepAt(log, n);
    ChallengesEffect(TablesAt(log, n), log[n].op, log[n].env, TablesAt(log, n + 1));
    i := ChallengeOrigin(log, n, log[n].op.hash);
    StepAt(log, i);
    if log[n].op.kind.NeedsSession() {
      BoundIsLive(TablesAt(log, n), log[n].op, log[n].env, TablesAt(log, n + 1));
      BoundIsLive(TablesAt(log, i), log[i].op, log[i].env, TablesAt(log, i + 1));
    }
  }

  /** Between two consumptions of one hash there is a fresh issue of it. */
  lemma NoDoubleConsumption(log: seq<Entry>, m: nat, n: nat) returns (i: nat)
    requires History(log) && m < n < |log| && log[m].op.ConsumeChallenge? && Consumes(log[n], log[m].op.hash)
    ensures m < i < n && Issues(log[i], log[m].op.hash)
  {
    i := ConsumptionAnswersIssue(log, n);
    assert Consumes(log[m], log[m].op.hash);
  }

  // ---- Recovery codes. ----

  /** Entry `n` replaces the codes of account `a`. */
  predicate Replaces(log: seq<Entry>, n: nat, a: AccountId)
    requires n < |log|
  {
    log[n].op.ReplaceRecoveryCodes? && Presenter(TablesAt(log, n), Some(log[n].op.session)) == Some(a)
  }

  /** Entry `n` redeems a code of account `a`. */
  predicate Redeems(log: seq<Entry>, n: nat, a: AccountId)
    requires n < |log|
  {
    && log[n].op.RedeemRecoveryCode? && log[n].op.code in TablesAt(log, n).codes
    && TablesAt(log, n).codes[log[n].op.code] == a
  }

  function Redemptions(log: seq<Entry>, a: AccountId, i: nat, j: nat): nat
    requires i <= j <= |log|
    decreases j
  {
    if i == j then 0 else Redemptions(log, a, i, j - 1) + (if Redeems(log, j - 1, a) then 1 else 0)
  }

  lemma OneRedemption(log: seq<Entry>, n: nat, a: AccountId)
    requires History(log) && n < |log| && !Replaces(log, n, a)
    ensures |CodesOf(TablesAt(log, n), a)| == (if Redeems(log, n, a) then 1 else 0) + |CodesOf(TablesAt(log, n + 1), a)|
  {
    StepAt(log, n);
    var db, e, after := TablesAt(log, n), log[n], TablesAt(log, n + 1);
    CodesEffect(db, e.op, e.env, after);
    CodesOfOthers(db, e.op, e.env, after, a);
    if e.op.RedeemRecoveryCode? {
      assert e.op.code in CodesOf(db, a) <==> Redeems(log, n, a);
      assert e.op.code !in CodesOf(db, a) ==> CodesOf(db, a) - {e.op.code} == CodesOf(db, a);
    }
  }

  /** While an account's codes are not replaced, every code is either still there or was redeemed once. */
  lemma {:induction false} CodesAreConserved(log: seq<Entry>, a: AccountId, i: nat, j: nat)
    requires History(log) && i <= j <= |log|
    requires forall n :: i <= n < j ==> !Replaces(log, n, a)
    ensures |CodesOf(TablesAt(log, i), a)| == Redemptions(log, a, i, j) + |CodesOf(TablesAt(log, j), a)|
    decreases j - i
  {
    if i < j {
      CodesAreConserved(log, a, i, j - 1);
      OneRedemption(log, j - 1, a);
    }
  }

  /** Between replacements an account redeems at most eight codes. */
  lemma AtMostEightRedemptions(log: seq<Entry>, a: AccountId, i: nat, j: nat)
    requires History(log) && i <= j <= |log|
    requires forall n :: i <= n < j ==> !Replaces(log, n, a)
    ensures Redemptions(log, a, i, j) <= 8
  {
    CodesAreConserved(log, a, i, j);
    HistoriesAreSound(log, i);
  }

  predicate RedeemsCode(e: Entry, h: Hash) { e.op.RedeemRecoveryCode? && e.op.code == h }

  lemma CodeStep(log: seq<Entry>, n: nat, h: Hash)
    requires History(log) && n < |log| && h in TablesAt(log, n + 1).codes
    ensures var a := TablesAt(log, n + 1).codes[h];
      if Replaces(log, n, a) then h in log[n].op.codes
      else h in TablesAt(log, n).codes && TablesAt(log, n).codes[h] == a && !RedeemsCode(log[n], h)
  {
    StepAt(log, n);
    CodesEffect(TablesAt(log, n), log[n].op, log[n].env, TablesAt(log, n + 1));
  }

  /** Every stored code was minted by a replacement of its account, and neither redeemed nor replaced since. */
  lemma {:induction false} CodeOrigin(log: seq<Entry>, n: nat, h: Hash) returns (i: nat)
    requires History(log) && n <= |log| && h in TablesAt(log, n).codes
    ensures i < n && Replaces(log, i, TablesAt(log, n).codes[h]) && h in log[i].op.codes
    ensures forall m :: i < m < n ==> !RedeemsCode(log[m], h) && !Replaces(log, m, TablesAt(log, n).codes[h])
  {
    assert n > 0 by { assert TablesAt(log, 0) == EMPTY; }
    CodeStep(log, n - 1, h);
    if Replaces(log, n - 1, TablesAt(log, n).codes[h]) { i := n - 1; } else { i := CodeOrigin(log, n - 1, h); }
  }

  /** Between two redemptions of one code it was minted again. */
  lemma NoDoubleRedemption(log: seq<Entry>, m: nat, n: nat) returns (i: nat)
    requires History(log) && m < n < |log| && log[m].op.RedeemRecoveryCode? && RedeemsCode(log[n], log[m].op.code)
    ensures m < i < n && log[i].op.ReplaceRecoveryCodes? && log[m].op.code in log[i].op.codes
  {
    StepAt(log, n);
    CodesEffect(TablesAt(log, n), log[n].op, log[n].env, TablesAt(log, n + 1));
    i := CodeOrigin(log, n, log[m].op.code);
    assert RedeemsCode(log[m], log[m].op.code);
  }

  // ---- Recovery sessions. ----

  /** A redemption leaves its account one session, a recovery one, no bound challenge, and every other account as it was. */
  lemma RedemptionLeavesOneSession(log: seq<Entry>, n: nat, a: AccountId)
    requires History(log) && n < |log| && Redeems(log, n, a)
    ensures SessionsOf(TablesAt(log, n + 1), a) == {log[n].op.session}
    ensures TablesAt(log, n + 1).sessions[log[n].op.session].via == ByRecovery
    ensures ChallengesOf(TablesAt(log, n + 1), a) == {} && log[n].op.code !in TablesAt(log, n + 1).codes
    ensures forall b :: b != a ==>
      && SessionsOf(TablesAt(log, n + 1), b) == SessionsOf(TablesAt(log, n), b)
      && ChallengesOf(TablesAt(log, n + 1), b) == ChallengesOf(TablesAt(log, n), b)
      && CodesOf(TablesAt(log, n + 1), b) == CodesOf(TablesAt(log, n), b)
  {
    StepAt(log, n);
    var db, e, after := TablesAt(log, n), log[n], TablesAt(log, n + 1);
    SessionsEffect(db, e.op, e.env, after);
    ChallengesEffect(db, e.op, e.env, after);
    CodesEffect(db, e.op, e.env, after);
  }

  ghost predicate OnlyRecovery(db: Db, a: AccountId) {
    forall h :: h in db.sessions && db.sessions[h].account == a ==> db.sessions[h].via.ByRecovery?
  }

  /** Entry `n` opens a session of `a` by passkey or wallet. */
  predicate ProvesAccount(log: seq<Entry>, n: nat, a: AccountId)
    requires n < |log|
  {
    match log[n].op
    case CreatePasskeyAccount(_, _, _, _, _) => log[n].env.freshAccount == a
    case LoginPasskey(account, _, _, _, _, _, _) => account == a
    case LoginWallet(w, _, _) =>
      (if w in TablesAt(log, n).wallets then TablesAt(log, n).wallets[w] else log[n].env.freshAccount) == a
    case _ => false
  }

  lemma {:induction false} RecoveryStaysRecovery(log: seq<Entry>, a: AccountId, i: nat, j: nat)
    requires History(log) && i <= j <= |log| && OnlyRecovery(TablesAt(log, i), a)
    requires forall m :: i <= m < j ==> !ProvesAccount(log, m, a)
    ensures OnlyRecovery(TablesAt(log, j), a)
    decreases j - i
  {
    if i < j {
      RecoveryStaysRecovery(log, a, i, j - 1);
      StepAt(log, j - 1);
      SessionsEffect(TablesAt(log, j - 1), log[j - 1].op, log[j - 1].env, TablesAt(log, j));
      assert !ProvesAccount(log, j - 1, a);
    }
  }

  /** After a redemption the account's codes are replaced only after a passkey or wallet login of that account. */
  lemma NewCodesNeedProof(log: seq<Entry>, i: nat, j: nat, a: AccountId)
    requires History(log) && i < j < |log| && Redeems(log, i, a) && Replaces(log, j, a)
    ensures exists m :: i < m < j && ProvesAccount(log, m, a)
  {
    if forall m :: i < m < j ==> !ProvesAccount(log, m, a) {
      RedemptionLeavesOneSession(log, i, a);
      var after := TablesAt(log, i + 1);
      assert forall h :: h in after.sessions && after.sessions[h].account == a ==> h in SessionsOf(after, a);
      RecoveryStaysRecovery(log, a, i + 1, j);
      StepAt(log, j);
      CodesEffect(TablesAt(log, j), log[j].op, log[j].env, TablesAt(log, j + 1));
    }
  }

  predicate IsLogin(op: Op) { op.CreatePasskeyAccount? || op.LoginPasskey? || op.LoginWallet? }

  /** Every committed registration or login leaves a session of one day, of its own account and by its own method. */
  lemma LoginsOpenSessions(log: seq<Entry>, n: nat)
    requires History(log) && n < |log| && IsLogin(log[n].op)
    ensures var db, e, after := TablesAt(log, n), log[n], TablesAt(log, n + 1);
      && e.op.session in after.sessions
      && after.sessions[e.op.session] == SessionRow(
           if e.op.LoginPasskey? then e.op.account
           else if e.op.LoginWallet? && e.op.address in db.wallets then db.wallets[e.op.address] else e.env.freshAccount,
           if e.op.LoginWallet? then ByWallet else ByPasskey, e.env.start, e.env.start + 86_400_000_000)
      && ActiveAccount(after, after.sessions[e.op.session].account)
  {
    StepAt(log, n);
    LoginOpensSession(TablesAt(log, n), log[n].op, log[n].env);
  }

  /** Less than five minutes after it, a login's session can replace its account's codes by any eight that no other account has. */
  lemma LoginsCanMint(log: seq<Entry>, n: nat, codes: seq<Hash>, env: Env)
    requires History(log) && n < |log| && IsLogin(log[n].op) && Soon(env, log[n].env.start) && EightCodes(codes)
    ensures var after, h := TablesAt(log, n + 1), log[n].op.session;
      h in after.sessions &&
      (CodeOfOther(after, codes, after.sessions[h].account) || Exec(after, ReplaceRecoveryCodes(h, codes), env).Ok?)
  {
    LoginsOpenSessions(log, n);
    var after, h := TablesAt(log, n + 1), log[n].op.session;
    if !CodeOfOther(after, codes, after.sessions[h].account) { LoginCanMint(after, h, codes, env, log[n].env.start); }
  }
}
