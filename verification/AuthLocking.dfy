/**
 * The locking vocabulary of concurrent account transactions: which lock guards each fact a
 * transaction has read, which locks cover each row it is about to write, and the static
 * discipline a transaction's remaining statements must satisfy.
 */
module AuthLocking {
  import opened Prelude
  import opened AuthTables
  import opened AuthSpec
  import Lex

  datatype Table = Sessions | Challenges | Passkeys | Wallets | Codes

  datatype Lock =
    | Advisory(key: int)
    | AccountLock(account: AccountId)
    | RowLock(table: Table, rowKey: string)

  /** `hashtextextended` applied to the two advisory-lock name spaces of the store. */
  datatype Keys = Keys(hash: Hash -> int, wallet: Address -> int)

  /** What a statement has read, as a claim about the committed tables. */
  datatype Fact =
    | HashFree(hash: Hash)
    | AccountIs(account: AccountId, accountRow: AccountRow)
    | SessionIs(hash: Hash, sessionRow: SessionRow)
    | ChallengeIs(hash: Hash, challengeRow: ChallengeRow)
    | PasskeyIs(id: CredentialId, passkeyRow: PasskeyRow)
    | WalletIs(address: Address, owner: Option<AccountId>)
    | CodeIs(hash: Hash, account: AccountId)
    | PasskeysBelow(account: AccountId, bound: nat)
    | WalletsBelow(account: AccountId, bound: nat)
    | NotSessionOf(hash: Hash, account: AccountId)
    | OnlyRows(table: Table, account: AccountId, keys: set<string>)
    // Answers of unlocked lookups; used for discovery only.
    | SessionOwnerIs(hash: Hash, owner: Option<AccountId>)
    | PasskeyOwnerIs(id: CredentialId, account: AccountId)
    | HandleFree(handle: Handle)
    | CredentialFree(id: CredentialId)

  /** The rows an account-wide DELETE visits; no operation sweeps passkeys or wallets. */
  function RowsOf(db: Db, t: Table, a: AccountId): set<string> {
    match t
    case Sessions => SessionsOf(db, a)
    case Challenges => ChallengesOf(db, a)
    case Codes => CodesOf(db, a)
    case _ => {}
  }

  predicate Holds(f: Fact, db: Db) {
    match f
    case HashFree(h) => HashUnused(db, h)
    case AccountIs(a, row) => a in db.accounts && db.accounts[a] == row
    case SessionIs(h, row) => h in db.sessions && db.sessions[h] == row
    case ChallengeIs(h, row) => h in db.challenges && db.challenges[h] == row
    case PasskeyIs(id, row) => id in db.passkeys && db.passkeys[id] == row
    case WalletIs(w, None) => w !in db.wallets
    case WalletIs(w, Some(a)) => w in db.wallets && db.wallets[w] == a
    case CodeIs(h, a) => h in db.codes && db.codes[h] == a
    case PasskeysBelow(a, n) => a in db.accounts && |PasskeysOf(db, a)| < n
    case WalletsBelow(a, n) => a in db.accounts && |WalletsOf(db, a)| < n
    case NotSessionOf(h, a) => a in db.accounts && h !in SessionsOf(db, a)
    case OnlyRows(t, a, ks) => a in db.accounts && RowsOf(db, t, a) <= ks
    case SessionOwnerIs(h, None) => h !in db.sessions
    case SessionOwnerIs(h, Some(a)) => h in db.sessions && db.sessions[h].account == a
    case PasskeyOwnerIs(id, a) => id in db.passkeys && db.passkeys[id].account == a
    case HandleFree(h) => h !in HandlesIn(db)
    case CredentialFree(id) => id !in db.passkeys
  }

  /** The row a `SELECT ... FOR UPDATE` or `DELETE` of this fact locks. */
  function RowOf(f: Fact): Option<Lock> {
    match f
    case SessionIs(h, _) => Some(RowLock(Sessions, h))
    case ChallengeIs(h, _) => Some(RowLock(Challenges, h))
    case PasskeyIs(id, _) => Some(RowLock(Passkeys, id))
    case WalletIs(w, Some(_)) => Some(RowLock(Wallets, w))
    case CodeIs(h, _) => Some(RowLock(Codes, h))
    case _ => None
  }

  /** The lock that keeps a fact true until commit; `None` for discovery-only answers. */
  function Guard(k: Keys, f: Fact): Option<Lock> {
    match f
    case HashFree(h) => Some(Advisory(k.hash(h)))
    case AccountIs(a, _) => Some(AccountLock(a))
    case SessionIs(h, _) => Some(RowLock(Sessions, h))
    case ChallengeIs(h, _) => Some(RowLock(Challenges, h))
    case PasskeyIs(id, _) => Some(RowLock(Passkeys, id))
    case WalletIs(w, _) => Some(Advisory(k.wallet(w)))
    case CodeIs(h, _) => Some(RowLock(Codes, h))
    case PasskeysBelow(a, _) => Some(AccountLock(a))
    case WalletsBelow(a, _) => Some(AccountLock(a))
    case NotSessionOf(_, a) => Some(AccountLock(a))
    case OnlyRows(_, a, _) => Some(AccountLock(a))
    case _ => None
  }

  /** The parent lock under which a child row may be locked; `None` for an anonymous challenge. */
  function Parent(k: Keys, f: Fact): Option<Lock> {
    match f
    case SessionIs(_, row) => Some(AccountLock(row.account))
    case ChallengeIs(_, row) => if row.account.Some? then Some(AccountLock(row.account.value)) else None
    case PasskeyIs(_, row) => Some(AccountLock(row.account))
    case WalletIs(w, _) => Some(Advisory(k.wallet(w)))
    case CodeIs(_, a) => Some(AccountLock(a))
    case _ => None
  }

  /** A pending row change, applied when the transaction commits. */
  datatype Write =
    | InsertAccount(account: AccountId, accountRow: AccountRow)
    | InsertPasskey(id: CredentialId, passkeyRow: PasskeyRow)
    | UpdatePasskey(id: CredentialId, counter: nat, backedUp: bool)
    | InsertWallet(address: Address, account: AccountId)
    | InsertSession(hash: Hash, sessionRow: SessionRow)
    | DeleteSession(hash: Hash)
    | InsertChallenge(hash: Hash, challengeRow: ChallengeRow)
    | DeleteChallenge(hash: Hash)
    | InsertCode(hash: Hash, account: AccountId)
    | DeleteCode(hash: Hash)
    | DeleteAllOf(table: Table, account: AccountId, keys: set<string>)

  /** Pending changes, newest outermost. */
  datatype Writes = NoWrites | Then(before: Writes, last: Write)

  /** One row change; `None` when a unique index refuses it. */
  function Apply(w: Write, db: Db): Option<Db> {
    match w
    case InsertAccount(a, row) =>
      if a in db.accounts || row.handle in HandlesIn(db) then None
      else Some(db.(accounts := db.accounts[a := row]))
    case InsertPasskey(id, row) =>
      if id in db.passkeys then None else Some(db.(passkeys := db.passkeys[id := row]))
    case UpdatePasskey(id, counter, backedUp) =>
      if id !in db.passkeys then Some(db)
      else
        var row := db.passkeys[id];
        Some(db.(passkeys := db.passkeys[id :=
          row.(credential := row.credential.(counter := counter, backedUp := backedUp))]))
    case InsertWallet(w, a) =>
      if w in db.wallets then None else Some(db.(wallets := db.wallets[w := a]))
    case InsertSession(h, row) =>
      if h in db.sessions then None else Some(db.(sessions := db.sessions[h := row]))
    case DeleteSession(h) => Some(db.(sessions := db.sessions - {h}))
    case InsertChallenge(h, row) =>
      if h in db.challenges then None else Some(db.(challenges := db.challenges[h := row]))
    case DeleteChallenge(h) => Some(db.(challenges := db.challenges - {h}))
    case InsertCode(h, a) =>
      if h in db.codes then None else Some(db.(codes := db.codes[h := a]))
    case DeleteCode(h) => Some(db.(codes := db.codes - {h}))
    case DeleteAllOf(t, a, _) =>
      match t
      case Sessions => Some(db.(sessions := db.sessions - SessionsOf(db, a)))
      case Challenges => Some(db.(challenges := db.challenges - ChallengesOf(db, a)))
      case Codes => Some(db.(codes := db.codes - CodesOf(db, a)))
      case _ => None
  }

  function ApplyAll(ws: Writes, db: Db): Option<Db> {
    match ws
    case NoWrites => Some(db)
    case Then(before, last) =>
      match ApplyAll(before, db)
      case None => None
      case Some(mid) => Apply(last, mid)
  }

  predicate InsertsAccount(ws: Writes, a: AccountId) {
    ws.Then? && ((ws.last.InsertAccount? && ws.last.account == a) || InsertsAccount(ws.before, a))
  }

  /** What the executed statements of a transaction have established. */
  datatype Cert = Cert(held: set<Lock>, facts: set<Fact>, writes: Writes)

  const FRESH_CERT: Cert := Cert({}, {}, NoWrites)

  predicate OwnsAccount(c: Cert, a: AccountId) {
    AccountLock(a) in c.held || InsertsAccount(c.writes, a)
  }

  /** A write is covered when every lock that other transactions' facts about it need is held. */
  predicate Covered(k: Keys, w: Write, c: Cert) {
    match w
    case InsertAccount(_, _) => true
    case InsertPasskey(_, row) => OwnsAccount(c, row.account)
    case UpdatePasskey(id, _, _) => RowLock(Passkeys, id) in c.held
    case InsertWallet(w, a) => Advisory(k.wallet(w)) in c.held && OwnsAccount(c, a)
    case InsertSession(h, row) => Advisory(k.hash(h)) in c.held && OwnsAccount(c, row.account)
    case DeleteSession(h) => RowLock(Sessions, h) in c.held
    case InsertChallenge(h, row) =>
      Advisory(k.hash(h)) in c.held && (row.account.Some? ==> OwnsAccount(c, row.account.value))
    case DeleteChallenge(h) => RowLock(Challenges, h) in c.held
    case InsertCode(_, a) => OwnsAccount(c, a)
    case DeleteCode(h) => RowLock(Codes, h) in c.held
    case DeleteAllOf(t, a, ks) =>
      && OnlyRows(t, a, ks) in c.facts && AccountLock(a) in c.held
      && (forall key :: key in ks ==> RowLock(t, key) in c.held)
  }

  /** One statement of a transaction. */
  datatype Action =
    | AdviseHash(hash: Hash)
    | AdviseWallet(address: Address)
    | LockAccountRow(account: AccountId)
    | Select(fact: Fact)          // ... FOR UPDATE, or the row-locking half of a DELETE
    | Check(fact: Fact)           // a read of something already guarded
    | Peek(fact: Fact)            // an unlocked discovery read
    | ReadClock(at: Time)
    | Require(ok: bool)           // a test on values already read
    | Put(write: Write)

  /** The statements still to run. */
  datatype Plan = Done | Do(action: Action, rest: Plan)

  function LockOf(k: Keys, a: Action): Option<Lock> {
    match a
    case AdviseHash(h) => Some(Advisory(k.hash(h)))
    case AdviseWallet(w) => Some(Advisory(k.wallet(w)))
    case LockAccountRow(id) => Some(AccountLock(id))
    case Select(f) => RowOf(f)
    case _ => None
  }

  function LocksOf(k: Keys, a: Action): set<Lock> {
    match LockOf(k, a) case Some(l) => {l} case None => {}
  }

  function After(k: Keys, a: Action, c: Cert): Cert {
    match a
    case AdviseHash(_) => c.(held := c.held + LocksOf(k, a))
    case AdviseWallet(_) => c.(held := c.held + LocksOf(k, a))
    case LockAccountRow(_) => c.(held := c.held + LocksOf(k, a))
    case Select(f) => c.(held := c.held + LocksOf(k, a), facts := c.facts + {f})
    case Check(f) => c.(facts := c.facts + {f})
    case Put(w) => c.(writes := Then(c.writes, w))
    case _ => c
  }

  ghost predicate IsHashLock(k: Keys, l: Lock) {
    l.Advisory? && exists h :: k.hash(h) == l.key
  }

  /**
   * The discipline of one statement: hash advisory before wallet advisory before account rows in
   * ascending order before child rows; re-locking a held account is allowed anywhere; a child row
   * is locked under its parent, or by a transaction that holds nothing else.
   */
  ghost predicate Allowed(k: Keys, a: Action, c: Cert) {
    match a
    case AdviseHash(_) => c.held == {}
    case AdviseWallet(_) => forall l :: l in c.held ==> IsHashLock(k, l)
    case LockAccountRow(id) =>
      || AccountLock(id) in c.held
      || (forall l :: l in c.held ==> l.Advisory? || (l.AccountLock? && Lex.Less(l.account, id)))
    case Select(f) =>
      && (RowOf(f).Some? || f.WalletIs?)
      && (c.held == {} ==> RowOf(f).Some? && !f.WalletIs?)
      && (c.held != {} ==> Parent(k, f).Some? && Parent(k, f).value in c.held)
    case Check(f) => Guard(k, f).Some? && Guard(k, f).value in c.held
    case Peek(_) => true
    case ReadClock(_) => true
    case Require(_) => true
    case Put(w) => Covered(k, w, c)
  }

  ghost predicate Disciplined(k: Keys, p: Plan, c: Cert)
    decreases p
  {
    match p
    case Done => true
    case Do(a, rest) =>
      Allowed(k, a, c) && ((a.Require? ==> a.ok) ==> Disciplined(k, rest, After(k, a, c)))
  }

  function Final(k: Keys, p: Plan, c: Cert): Cert
    decreases p
  {
    match p
    case Done => c
    case Do(a, rest) => Final(k, rest, After(k, a, c))
  }

  predicate Passes(p: Plan)
    decreases p
  {
    match p
    case Done => true
    case Do(a, rest) => (a.Require? ==> a.ok) && Passes(rest)
  }

  // ---- Facts survive the commits of other transactions. ----

  ghost predicate FactsHold(c: Cert, db: Db) {
    forall f :: f in c.facts ==> Holds(f, db)
  }

  ghost predicate FactsGuarded(k: Keys, c: Cert) {
    forall f :: f in c.facts ==> Guard(k, f).Some? && Guard(k, f).value in c.held
  }

  ghost predicate WritesCovered(k: Keys, ws: Writes, c: Cert) {
    ws.Then? ==> Covered(k, ws.last, c) && WritesCovered(k, ws.before, c)
  }

  lemma {:induction false} CoveredGrows(k: Keys, ws: Writes, c: Cert, d: Cert)
    requires WritesCovered(k, ws, c)
    requires c.held <= d.held && c.facts <= d.facts
    requires forall a :: InsertsAccount(c.writes, a) ==> InsertsAccount(d.writes, a)
    ensures WritesCovered(k, ws, d)
  {
    if ws.Then? { CoveredGrows(k, ws.before, c, d); }
  }

  /** What `StableUnderWrite` assumes: `w` is a covered write of `c`, and `f` is guarded outside `c`. */
  ghost predicate Interferes(k: Keys, w: Write, f: Fact, c: Cert, db0: Db, db: Db) {
    && Guard(k, f).Some? && Guard(k, f).value !in c.held
    && Holds(f, db0) && Holds(f, db)
    && Covered(k, w, c) && FactsHold(c, db0)
    && (forall a :: InsertsAccount(c.writes, a) ==> a !in db0.accounts)
    && Apply(w, db).Some?
  }

  /** Tables that a write does not touch stay as they are. */
  lemma SessionsKept(w: Write, db: Db)
    requires Apply(w, db).Some? && !w.InsertSession? && !w.DeleteSession? && !w.DeleteAllOf?
    ensures Apply(w, db).value.sessions == db.sessions
  {}

  lemma ChallengesKept(w: Write, db: Db)
    requires Apply(w, db).Some? && !w.InsertChallenge? && !w.DeleteChallenge? && !w.DeleteAllOf?
    ensures Apply(w, db).value.challenges == db.challenges
  {}

  lemma CodesKept(w: Write, db: Db)
    requires Apply(w, db).Some? && !w.InsertCode? && !w.DeleteCode? && !w.DeleteAllOf?
    ensures Apply(w, db).value.codes == db.codes
  {}

  lemma PasskeysKept(w: Write, db: Db)
    requires Apply(w, db).Some? && !w.InsertPasskey? && !w.UpdatePasskey?
    ensures Apply(w, db).value.passkeys == db.passkeys
  {}

  lemma StableSession(k: Keys, w: Write, f: Fact, c: Cert, db0: Db, db: Db)
    requires Interferes(k, w, f, c, db0, db) && f.SessionIs?
    ensures Holds(f, Apply(w, db).value)
  {
    if w.DeleteAllOf? {
      assert Holds(OnlyRows(w.table, w.account, w.keys), db0);
      assert f.sessionRow.account == w.account ==> f.hash in SessionsOf(db0, w.account);
    } else if !w.InsertSession? && !w.DeleteSession? {
      SessionsKept(w, db);
    }
  }

  lemma SweptRows(db: Db, h: Hash, a: AccountId, keys: set<string>)
    ensures RowsOf(db, Codes, a) <= keys && h in db.codes && db.codes[h] == a ==> h in keys
    ensures RowsOf(db, Challenges, a) <= keys && h in db.challenges && db.challenges[h].account == Some(a) ==> h in keys
  {}

  lemma ChallengeUnderSweep(k: Keys, w: Write, f: Fact, c: Cert, db0: Db, db: Db)
    requires Interferes(k, w, f, c, db0, db) && f.ChallengeIs? && w.DeleteAllOf?
    ensures Holds(f, Apply(w, db).value)
  {
    if w.table.Challenges? {
      assert Holds(OnlyRows(Challenges, w.account, w.keys), db0);
      SweptRows(db0, f.hash, w.account, w.keys);
    }
  }

  lemma StableChallenge(k: Keys, w: Write, f: Fact, c: Cert, db0: Db, db: Db)
    requires Interferes(k, w, f, c, db0, db) && f.ChallengeIs?
    ensures Holds(f, Apply(w, db).value)
  {
    if w.DeleteAllOf? {
      ChallengeUnderSweep(k, w, f, c, db0, db);
    } else if !w.InsertChallenge? && !w.DeleteChallenge? {
      ChallengesKept(w, db);
    }
  }

  lemma CodeUnderSweep(k: Keys, w: Write, f: Fact, c: Cert, db0: Db, db: Db)
    requires Interferes(k, w, f, c, db0, db) && f.CodeIs? && w.DeleteAllOf?
    ensures Holds(f, Apply(w, db).value)
  {
    if w.table.Codes? {
      assert Holds(OnlyRows(Codes, w.account, w.keys), db0);
      SweptRows(db0, f.hash, w.account, w.keys);
    }
  }

  lemma StableCode(k: Keys, w: Write, f: Fact, c: Cert, db0: Db, db: Db)
    requires Interferes(k, w, f, c, db0, db) && f.CodeIs?
    ensures Holds(f, Apply(w, db).value)
  {
    if w.DeleteAllOf? {
      CodeUnderSweep(k, w, f, c, db0, db);
    } else if !w.InsertCode? && !w.DeleteCode? {
      CodesKept(w, db);
    }
  }

  /** Accounts are never removed or changed by a write. */
  lemma AccountsStay(w: Write, db: Db, a: AccountId)
    requires Apply(w, db).Some? && a in db.accounts
    ensures a in Apply(w, db).value.accounts && Apply(w, db).value.accounts[a] == db.accounts[a]
  {}

  lemma PasskeysStay(w: Write, db: Db, a: AccountId)
    requires Apply(w, db).Some? && (w.InsertPasskey? ==> w.passkeyRow.account != a)
    ensures PasskeysOf(Apply(w, db).value, a) == PasskeysOf(db, a)
  {}

  lemma StablePasskeyCount(k: Keys, w: Write, f: Fact, c: Cert, db0: Db, db: Db)
    requires Interferes(k, w, f, c, db0, db) && f.PasskeysBelow?
    ensures Holds(f, Apply(w, db).value)
  {
    AccountsStay(w, db, f.account);
    PasskeysStay(w, db, f.account);
  }

  lemma WalletsStay(w: Write, db: Db, a: AccountId)
    requires Apply(w, db).Some? && (w.InsertWallet? ==> w.account != a)
    ensures WalletsOf(Apply(w, db).value, a) == WalletsOf(db, a)
  {}

  lemma StableWalletCount(k: Keys, w: Write, f: Fact, c: Cert, db0: Db, db: Db)
    requires Interferes(k, w, f, c, db0, db) && f.WalletsBelow?
    ensures Holds(f, Apply(w, db).value)
  {
    AccountsStay(w, db, f.account);
    WalletsStay(w, db, f.account);
  }

  /** A write that can change the rows of an account-wide DELETE on this table. */
  predicate TouchesRows(w: Write, t: Table) {
    match t
    case Sessions => w.InsertSession? || w.DeleteSession? || w.DeleteAllOf?
    case Challenges => w.InsertChallenge? || w.DeleteChallenge? || w.DeleteAllOf?
    case Codes => w.InsertCode? || w.DeleteCode? || w.DeleteAllOf?
    case _ => false
  }

  lemma RowsStay(w: Write, db: Db, t: Table, a: AccountId)
    requires Apply(w, db).Some? && !TouchesRows(w, t)
    ensures RowsOf(Apply(w, db).value, t, a) == RowsOf(db, t, a)
  {}

  lemma SessionsShrink(k: Keys, w: Write, f: Fact, c: Cert, db0: Db, db: Db)
    requires Interferes(k, w, f, c, db0, db) && f.OnlyRows? && TouchesRows(w, f.table) && f.table.Sessions?
    ensures RowsOf(Apply(w, db).value, f.table, f.account) <= RowsOf(db, f.table, f.account)
  {}

  lemma ChallengesShrink(k: Keys, w: Write, f: Fact, c: Cert, db0: Db, db: Db)
    requires Interferes(k, w, f, c, db0, db) && f.OnlyRows? && TouchesRows(w, f.table) && f.table.Challenges?
    ensures RowsOf(Apply(w, db).value, f.table, f.account) <= RowsOf(db, f.table, f.account)
  {}

  lemma CodesShrink(k: Keys, w: Write, f: Fact, c: Cert, db0: Db, db: Db)
    requires Interferes(k, w, f, c, db0, db) && f.OnlyRows? && TouchesRows(w, f.table) && f.table.Codes?
    ensures RowsOf(Apply(w, db).value, f.table, f.account) <= RowsOf(db, f.table, f.account)
  {}

  lemma StableOnly(k: Keys, w: Write, f: Fact, c: Cert, db0: Db, db: Db)
    requires Interferes(k, w, f, c, db0, db) && f.OnlyRows?
    ensures Holds(f, Apply(w, db).value)
  {
    AccountsStay(w, db, f.account);
    if !TouchesRows(w, f.table) {
      RowsStay(w, db, f.table, f.account);
    } else {
      match f.table
      case Sessions => SessionsShrink(k, w, f, c, db0, db);
      case Challenges => ChallengesShrink(k, w, f, c, db0, db);
      case _ => CodesShrink(k, w, f, c, db0, db);
    }
  }

  lemma HashStaysFree(w: Write, db: Db, h: Hash)
    requires Apply(w, db).Some? && HashUnused(db, h)
    requires (w.InsertSession? || w.InsertChallenge?) ==> w.hash != h
    ensures HashUnused(Apply(w, db).value, h)
  {}

  lemma StableHash(k: Keys, w: Write, f: Fact, c: Cert, db0: Db, db: Db)
    requires Interferes(k, w, f, c, db0, db) && f.HashFree?
    ensures Holds(f, Apply(w, db).value)
  {
    HashStaysFree(w, db, f.hash);
  }

  lemma StableAbsence(k: Keys, w: Write, f: Fact, c: Cert, db0: Db, db: Db)
    requires Interferes(k, w, f, c, db0, db) && f.NotSessionOf?
    ensures Holds(f, Apply(w, db).value)
  {
    AccountsStay(w, db, f.account);
    if w.InsertSession? { AbsenceUnderInsert(k, w, f, c, db0, db); } else { SessionsOnlyShrink(w, db); }
  }

  lemma AbsenceUnderInsert(k: Keys, w: Write, f: Fact, c: Cert, db0: Db, db: Db)
    requires Interferes(k, w, f, c, db0, db) && f.NotSessionOf? && w.InsertSession?
    ensures f.hash !in SessionsOf(Apply(w, db).value, f.account)
  {}

  lemma SessionsOnlyShrink(w: Write, db: Db)
    requires Apply(w, db).Some? && !w.InsertSession?
    ensures forall h :: h in Apply(w, db).value.sessions ==>
      h in db.sessions && Apply(w, db).value.sessions[h] == db.sessions[h]
  {}

  lemma StablePlain(k: Keys, w: Write, f: Fact, c: Cert, db0: Db, db: Db)
    requires Interferes(k, w, f, c, db0, db)
    requires f.AccountIs? || f.PasskeyIs?
    ensures Holds(f, Apply(w, db).value)
  {
    if f.AccountIs? {
      if f.account in db.accounts { AccountsStay(w, db, f.account); }
    } else if !w.InsertPasskey? && !w.UpdatePasskey? {
      PasskeysKept(w, db);
    }
  }

  lemma StableWallet(k: Keys, w: Write, f: Fact, c: Cert, db0: Db, db: Db)
    requires Interferes(k, w, f, c, db0, db) && f.WalletIs?
    ensures Holds(f, Apply(w, db).value)
  {}

  /** One covered write of `c` leaves a fact guarded outside `c` true. */
  lemma StableUnderWrite(k: Keys, w: Write, f: Fact, c: Cert, db0: Db, db: Db)
    requires Interferes(k, w, f, c, db0, db)
    ensures Holds(f, Apply(w, db).value)
  {
    match f
    case SessionIs(_, _) => StableSession(k, w, f, c, db0, db);
    case ChallengeIs(_, _) => StableChallenge(k, w, f, c, db0, db);
    case CodeIs(_, _) => StableCode(k, w, f, c, db0, db);
    case PasskeysBelow(_, _) => StablePasskeyCount(k, w, f, c, db0, db);
    case WalletsBelow(_, _) => StableWalletCount(k, w, f, c, db0, db);
    case OnlyRows(_, _, _) => StableOnly(k, w, f, c, db0, db);
    case HashFree(_) => StableHash(k, w, f, c, db0, db);
    case NotSessionOf(_, _) => StableAbsence(k, w, f, c, db0, db);
    case WalletIs(_, _) => StableWallet(k, w, f, c, db0, db);
    case _ => StablePlain(k, w, f, c, db0, db);
  }
}
