/**
 * The tables behind authentication and the single statements on them.  Identifiers, addresses
 * and texts are integers, hashing is an injective constructor, and time is an integer clock.
 */
module AuthTables {
  import opened Prelude

  datatype Role = NoRole | Admin | Viewer

  function RoleFromU8(value: int): Role {
    if value == 1 then Admin else if value == 2 then Viewer else NoRole
  }

  function RoleAsU8(role: Role): int {
    match role case NoRole => 0 case Admin => 1 case Viewer => 2
  }

  datatype Hash = Hashed(token: int)

  datatype NonceRow = NonceRow(expiresAt: int, consumedAt: Option<int>)

  datatype SessionRow = SessionRow(user: int, wallet: int, expiresAt: int, hash: Hash, revokedAt: Option<int>)

  datatype RoleCache = RoleCache(value: int, updatedAt: int)

  datatype WalletRow = WalletRow(user: int, address: int, chainId: int, cache: Option<RoleCache>)

  datatype AuthError = NonceNotFound | NonceExpired | InvalidToken | RefreshTokenInvalid | InvalidSignature
      | WalletAlreadyLinked | Internal

  type Nonces = map<int, NonceRow>
  type Sessions = map<int, SessionRow>
  type Wallets = map<int, WalletRow>

  const NONCE_TTL := 300

  // ----- Nonces -----

  /** The upsert on issue: it also clears an earlier consumption. */
  function PersistNonce(t: Nonces, nonce: int, expiresAt: int): Nonces {
    t[nonce := NonceRow(expiresAt, None)]
  }

  function NonceError(t: Nonces, nonce: int, now: int): Option<AuthError> {
    if nonce !in t then Some(NonceNotFound)
    else if t[nonce].consumedAt.Some? || t[nonce].expiresAt < now then Some(NonceExpired)
    else None
  }

  predicate IsFree(t: Nonces, nonce: int) {
    nonce in t && t[nonce].consumedAt.None?
  }

  /** The conditional update: it touches the row only while it is unconsumed. */
  function ConsumeNonce(t: Nonces, nonce: int, now: int): Nonces {
    if IsFree(t, nonce) then t[nonce := t[nonce].(consumedAt := Some(now))] else t
  }

  // ----- Sessions -----

  predicate HashTaken(t: Sessions, hash: Hash) {
    exists id :: id in t && t[id].hash == hash
  }

  /** The primary key and the unique index on the hash. */
  predicate CanInsert(t: Sessions, id: int, hash: Hash) {
    id !in t && !HashTaken(t, hash)
  }

  predicate IsActive(t: Sessions, id: int, now: int) {
    id in t && t[id].revokedAt.None? && !(t[id].expiresAt < now)
  }

  function RevokeSession(t: Sessions, id: int, now: int): Sessions {
    if id in t then t[id := t[id].(revokedAt := Some(now))] else t
  }

  /** The admin's revocation leaves a session alone that is revoked already. */
  function RevokeIfLive(t: Sessions, id: int, now: int): Sessions {
    if id in t && t[id].revokedAt.None? then RevokeSession(t, id, now) else t
  }

  /** The session a refresh token rotates, if it is live. */
  predicate CanRotate(t: Sessions, id: int, token: int, now: int) {
    id in t && t[id].hash == Hashed(token) && t[id].revokedAt.None? && !(t[id].expiresAt < now)
  }

  /** The locked transaction of a refresh: revoke the old session and insert its successor. */
  function RotateSession(t: Sessions, id: int, now: int, newId: int, newToken: int, expiresAt: int): Sessions
    requires id in t
  {
    RevokeSession(t, id, now)[newId := SessionRow(t[id].user, t[id].wallet, expiresAt, Hashed(newToken), None)]
  }

  // ----- Wallets and the role cache -----

  predicate AddressKnown(t: Wallets, address: int) {
    exists w :: w in t && t[w].address == address
  }

  predicate WalletTaken(t: Wallets, address: int, chainId: int) {
    exists w :: w in t && t[w].address == address && t[w].chainId == chainId
  }

  /** Stores a role in every wallet row with this address. */
  function StoreRole(t: Wallets, address: int, role: Role, now: int): (r: Wallets)
    ensures r.Keys == t.Keys
    ensures forall w :: w in t ==>
              r[w] == if t[w].address == address then t[w].(cache := Some(RoleCache(RoleAsU8(role), now))) else t[w]
  {
    map w | w in t :: if t[w].address == address then t[w].(cache := Some(RoleCache(RoleAsU8(role), now))) else t[w]
  }

  /** The cached role of a row, if it is younger than the time to live. */
  function FreshRole(row: WalletRow, ttl: int, now: int): Option<Role> {
    if row.cache.Some? && row.cache.value.updatedAt + ttl > now then Some(RoleFromU8(row.cache.value.value)) else None
  }

  lemma RoleU8RoundTrip(role: Role)
    ensures RoleFromU8(RoleAsU8(role)) == role
  {
  }
}
