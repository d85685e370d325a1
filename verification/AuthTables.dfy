/**
 * The tables of the account repository and the vocabulary of its operations.
 * Instants are microseconds since the epoch, as PostgreSQL's timestamptz keeps them.
 */
module AuthTables {
  import opened Prelude

  type Hash = string
  type AccountId = string
  type Handle = string
  type CredentialId = string
  type Address = string
  type Time = int

  const SECOND: Time := 1_000_000
  const FIVE_MINUTES: Time := 300 * SECOND
  const ONE_DAY: Time := 86_400 * SECOND

  const MAX_COUNTER: nat := 4_294_967_295
  const MAX_PUBLIC_KEY_BYTES: nat := 2048
  const MAX_TRANSPORTS: nat := 8
  const MAX_CREDENTIALS_PER_ACCOUNT: nat := 10
  const MAX_WALLETS_PER_ACCOUNT: nat := 10
  const REQUIRED_RECOVERY_CODES: nat := 8

  datatype AuthError =
    | InputInvalid | ChallengeInvalid | SessionInvalid | AccountDisabled
    | Conflict | LimitReached | Database

  datatype Result<+T> = Ok(value: T) | Err(error: AuthError) {
    predicate IsFailure() { Err? }
    function PropagateFailure<U>(): Result<U> requires Err? { Err(error) }
    function Extract(): T requires Ok? { value }
  }

  datatype Status = Active | Disabled
  datatype SessionMethod = ByPasskey | ByWallet | ByRecovery
  datatype Device = SingleDevice | MultiDevice
  datatype Transport = Usb | Nfc | Ble | Internal | Hybrid | Cable | SmartCard
  datatype Kind = PasskeyRegister | PasskeyLogin | PasskeyAdd | WalletLogin | WalletLink {
    predicate NeedsSession() { PasskeyAdd? || WalletLink? }
    predicate NeedsHandle() { PasskeyRegister? || PasskeyAdd? }
    predicate NeedsWallet() { WalletLogin? || WalletLink? }
  }

  datatype AccountRow = AccountRow(handle: Handle, status: Status)

  /** Public credential fields, both as presented and as stored. */
  datatype Credential = Credential(
    publicKey: seq<bv8>, counter: nat, device: Device, backedUp: bool, transports: seq<Transport>)
  {
    predicate Acceptable() {
      && 1 <= |publicKey| <= MAX_PUBLIC_KEY_BYTES
      && counter <= MAX_COUNTER
      && |transports| <= MAX_TRANSPORTS
      && !(device.SingleDevice? && backedUp)
    }
  }

  datatype PasskeyRow = PasskeyRow(account: AccountId, credential: Credential)
  datatype SessionRow = SessionRow(account: AccountId, via: SessionMethod, createdAt: Time, expiresAt: Time)
  datatype ChallengeRow = ChallengeRow(
    binding: Hash, kind: Kind, challenge: string, handle: Option<Handle>,
    account: Option<AccountId>, wallet: Option<Address>, createdAt: Time, expiresAt: Time)

  datatype Db = Db(
    accounts: map<AccountId, AccountRow>,
    passkeys: map<CredentialId, PasskeyRow>,
    wallets: map<Address, AccountId>,
    sessions: map<Hash, SessionRow>,
    challenges: map<Hash, ChallengeRow>,
    codes: map<Hash, AccountId>)

  const EMPTY: Db := Db(map[], map[], map[], map[], map[], map[])

  // Rows of one account, table by table.
  function PasskeysIn(m: map<CredentialId, PasskeyRow>, a: AccountId): set<CredentialId> {
    set c | c in m && m[c].account == a
  }

  function OwnedBy(m: map<string, AccountId>, a: AccountId): set<string> {
    set x | x in m && m[x] == a
  }

  function SessionsIn(m: map<Hash, SessionRow>, a: AccountId): set<Hash> {
    set h | h in m && m[h].account == a
  }

  function ChallengesIn(m: map<Hash, ChallengeRow>, a: AccountId): set<Hash> {
    set h | h in m && m[h].account == Some(a)
  }

  function PasskeysOf(db: Db, a: AccountId): set<CredentialId> { PasskeysIn(db.passkeys, a) }
  function WalletsOf(db: Db, a: AccountId): set<Address> { OwnedBy(db.wallets, a) }
  function CodesOf(db: Db, a: AccountId): set<Hash> { OwnedBy(db.codes, a) }
  function SessionsOf(db: Db, a: AccountId): set<Hash> { SessionsIn(db.sessions, a) }
  function ChallengesOf(db: Db, a: AccountId): set<Hash> { ChallengesIn(db.challenges, a) }

  function HandlesIn(db: Db): set<Handle> {
    set a | a in db.accounts :: db.accounts[a].handle
  }

  predicate HashUnused(db: Db, h: Hash) {
    h !in db.sessions && h !in db.challenges
  }

  /** The two freshness tests of a session: in SQL to the microsecond, then again in milliseconds. */
  predicate FreshInSql(row: SessionRow, clock: Time) {
    row.expiresAt > clock && row.createdAt > clock - FIVE_MINUTES
  }

  predicate FreshInMillis(row: SessionRow, clock: Time) {
    row.expiresAt / 1000 > clock / 1000 && row.createdAt / 1000 > clock / 1000 - 300_000
  }

  /** Operations with their parsed arguments. */
  datatype Op =
    | IssueChallenge(hash: Hash, binding: Hash, kind: Kind, challenge: string,
                     handle: Option<Handle>, wallet: Option<Address>, viaSession: Option<Hash>)
    | ConsumeChallenge(hash: Hash, binding: Hash, kind: Kind, viaSession: Option<Hash>)
    | CreatePasskeyAccount(newHandle: Handle, id: CredentialId, credential: Credential,
                           session: Hash, previous: Option<Hash>)
    | LoginPasskey(account: AccountId, id: CredentialId, expected: Credential, newCounter: nat,
                   backedUp: bool, session: Hash, previous: Option<Hash>)
    | LoginWallet(address: Address, session: Hash, previous: Option<Hash>)
    | Logout(session: Hash)
    | AddPasskey(session: Hash, id: CredentialId, credential: Credential, ownHandle: Handle)
    | LinkWallet(session: Hash, address: Address)
    | ReplaceRecoveryCodes(session: Hash, codes: seq<Hash>)
    | RedeemRecoveryCode(code: Hash, session: Hash)
    | Purge(sessions: set<Hash>, challenges: set<Hash>)

  /**
   * What a transaction learns from outside its locks: `now()`, its later clock reads, the
   * unlocked answers about the previous session and the logged-out session, and fresh randomness.
   */
  datatype Env = Env(
    start: Time, sqlClock: Time, jsClock: Time, deleteClock: Time,
    previous: Option<AccountId>, found: bool, freshAccount: AccountId, freshHandle: Handle)

  datatype Reply =
    | NoReply
    | ChallengeReply(challenge: ChallengeRow)
    | SessionReply(session: SessionRow)

  datatype Committed = Committed(db: Db, reply: Reply)
}
