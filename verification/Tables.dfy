/** The records the sync service stores, grouped by vault, and the row-level operations on them. */
module Tables {
  import opened Basics
  import opened Records

  /** Why a request is refused. `Corrupt` stands for a stored list that does not verify. */
  datatype Error =
    | NotFound | Conflict | Forbidden | Invalid | BadSignature | Replayed
    | Quota | NoVault | VaultExists | NotActivated | Corrupt

  datatype DeviceState = Approved | Revoked

  datatype Device = Device(
    deviceId: Text, token: Text, signingKey: Text, packageKey: Text,
    state: DeviceState, addedIndex: U64, activatedEpoch: U64)

  datatype PairingState = Offered | Answered | Confirmed

  datatype Pairing = Pairing(
    deviceId: Text, token: Text, signingKey: Text, packageKey: Text,
    offer: seq<Byte>, answer: seq<Byte>, confirm: seq<Byte>,
    state: PairingState, expiresAt: Time)

  datatype StoredHeader = StoredHeader(header: Header, digest: Text)

  /** Everything stored for one vault. */
  datatype Vault = Vault(
    id: Text, currentRevision: U64, headIndex: U64, epoch: U64,
    entries: seq<Entry>,
    devices: map<Text, Device>,
    packages: map<Text, KeyPackage>,
    headers: map<U64, StoredHeader>,
    ciphertexts: map<U64, seq<Byte>>,
    pairings: map<Text, Pairing>,
    checkpoints: map<Text, Checkpoint>)

  datatype NonceKey = NonceKey(scope: seq<Byte>, nonce: Text)

  /** The whole store: vaults by owner, and the nonces still remembered with their expiry. */
  datatype State = State(vaults: map<Text, Vault>, nonces: map<NonceKey, Time>)

  const EMPTY := State(map[], map[])

  const MAX_PENDING_PAIRINGS: nat := 3
  const MAX_PAIRING_MESSAGE_BYTES: nat := 512
  const MAX_ENTRIES_PER_PAGE: nat := 500
  const PAIRING_LIFETIME: Time := 600 * SECOND

  /** Cryptography and configuration; a configured service has both limits positive. */
  datatype Env = Env(crypto: Crypto, byteBudget: nat, headerRetention: U64) {
    ghost predicate Valid() {
      byteBudget > 0 && headerRetention > 0
    }
  }

  // ---------------------------------------------------------------------------------------------
  // Devices and pairings by token

  predicate Live(d: Device) {
    d.state != Revoked
  }

  /** Row i is what a lookup by token returns: a live row before a revoked one, then the latest added. */
  ghost predicate BestForToken(devices: map<Text, Device>, token: Text, i: Text) {
    && i in devices && devices[i].token == token
    && forall j | j in devices && devices[j].token == token ::
         (Live(devices[j]) ==> Live(devices[i]))
         && (devices[j].state == devices[i].state ==> devices[j].addedIndex <= devices[i].addedIndex)
  }

  ghost function DeviceByToken(devices: map<Text, Device>, token: Text): (d: Option<Device>)
    ensures d.Some? ==> exists i :: BestForToken(devices, token, i) && d.value == devices[i]
  {
    if exists i :: BestForToken(devices, token, i) then
      var i :| BestForToken(devices, token, i);
      Some(devices[i])
    else
      None
  }

  ghost function PairingByToken(pairings: map<Text, Pairing>, token: Text): (p: Option<Pairing>)
    ensures p.Some? ==> exists i :: i in pairings && pairings[i].token == token && p.value == pairings[i]
    ensures p.None? ==> forall i | i in pairings :: pairings[i].token != token
  {
    if exists i :: i in pairings && pairings[i].token == token then
      var i :| i in pairings && pairings[i].token == token;
      Some(pairings[i])
    else
      None
  }

  /** No other live device holds the token of this one. */
  predicate TokenFree(devices: map<Text, Device>, d: Device) {
    forall j | j in devices && j != d.deviceId :: Live(devices[j]) ==> devices[j].token != d.token
  }

  // ---------------------------------------------------------------------------------------------
  // Nonces

  /** Whether a nonce is fresh, and the table after the attempt. */
  function RecordNonce(nonces: map<NonceKey, Time>, key: NonceKey, now: Time,
                       expires: Time): (bool, map<NonceKey, Time>) {
    if key in nonces && now < nonces[key] then (false, nonces) else (true, nonces[key := expires])
  }

  function PurgeNonces(nonces: map<NonceKey, Time>, now: Time): map<NonceKey, Time> {
    map k | k in nonces && now < nonces[k] :: nonces[k]
  }

  function PurgePairings(v: Vault, now: Time): Vault {
    v.(pairings := map i | i in v.pairings && now < v.pairings[i].expiresAt :: v.pairings[i])
  }

  function PurgeExpired(st: State, now: Time): State {
    State(map o | o in st.vaults :: PurgePairings(st.vaults[o], now), PurgeNonces(st.nonces, now))
  }
}
