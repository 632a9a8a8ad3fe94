/** What is true of every stored vault in every reachable state of the service. */
module VaultInvariant {
  import opened Basics
  import opened Records
  import opened Tables
  import opened Operations
  import opened Retention
  import D = DeviceLog
  import H = Headers
  import Checkpoints

  type Devices = map<Text, Device>
  type Pairings = map<Text, Pairing>

  // ---------------------------------------------------------------------------------------------
  // The device table is a replay of the log

  ghost predicate RowMatches(d: Device, m: D.Member) {
    && d.deviceId == m.deviceId && d.signingKey == m.signingKey && d.packageKey == m.packageKey
    && d.addedIndex == m.addedIndex
    && (d.state == Approved <==> m.removedIndex == 0)
  }

  ghost predicate DevicesMatch(devices: Devices, members: map<Text, D.Member>) {
    && devices.Keys == members.Keys
    && forall i | i in devices :: RowMatches(devices[i], members[i])
  }

  /** The stored entries verify, and head, epoch and devices are what replaying them gives. */
  ghost predicate LogOk(c: Crypto, id: Text, head: U64, epoch: U64, entries: seq<Entry>, devices: Devices) {
    && entries != []
    && D.Replay(c, entries).Ok?
    && var l := D.Replay(c, entries).value;
       && head == |entries| == l.Head()
       && id == l.vaultId
       && epoch == l.Epoch()
       && DevicesMatch(devices, l.members)
  }

  // ---------------------------------------------------------------------------------------------
  // One live role per token

  /** At most three pairings; a token has one pairing or one live device, and an id one of the two. */
  ghost predicate RolesOk(devices: Devices, pairings: Pairings) {
    && |pairings| <= MAX_PENDING_PAIRINGS
    && pairings.Keys !! devices.Keys
    && (forall i | i in devices :: devices[i].deviceId == i)
    && (forall i | i in pairings :: pairings[i].deviceId == i)
    && (forall i, j | i in pairings && j in pairings && i != j :: pairings[i].token != pairings[j].token)
    && LiveTokensDiffer(devices)
    && (forall i, j | i in pairings && j in devices && Live(devices[j]) :: pairings[i].token != devices[j].token)
  }

  ghost predicate LiveTokensDiffer(devices: Devices) {
    forall i, j | i in devices && j in devices && i != j && Live(devices[i]) && Live(devices[j]) ::
        devices[i].token != devices[j].token
  }

  // ---------------------------------------------------------------------------------------------
  // Nobody is locked out

  /** A device holds the vault key already, or a package for the current epoch waits for it. */
  predicate HasKey(epoch: U64, d: Device, packages: map<Text, KeyPackage>) {
    d.activatedEpoch == epoch || (d.deviceId in packages && packages[d.deviceId].epoch == epoch)
  }

  ghost predicate NoneLockedOut(epoch: U64, devices: Devices, packages: map<Text, KeyPackage>) {
    forall i | i in devices && devices[i].state == Approved :: HasKey(epoch, devices[i], packages)
  }

  /** A stored package is filed under its recipient and verifies under the key of a device of the vault. */
  ghost predicate PackageOk(c: Crypto, id: Text, devices: Devices, i: Text, k: KeyPackage) {
    && k.recipient == i && k.vaultId == id
    && k.sender in devices && PackageSigned(c, k, devices[k.sender].signingKey)
  }

  ghost predicate PackagesOk(c: Crypto, id: Text, devices: Devices, packages: map<Text, KeyPackage>) {
    forall i | i in packages :: PackageOk(c, id, devices, i, packages[i])
  }

  // ---------------------------------------------------------------------------------------------
  // Headers and ciphertexts

  /** The revisions whose headers are kept: the last `retention` ones up to the current. */
  predicate Retained(r: nat, current: nat, retention: nat) {
    1 <= r <= current < r + retention
  }

  /** A stored body is the one its header signed, and belongs to the latest header's epoch. */
  ghost predicate BodyOk(c: Crypto, history: seq<Header>, r: nat, body: seq<Byte>) {
    && 1 <= r <= |history|
    && H.CiphertextMatches(c, history[r - 1], body)
    && |body| <= H.MAX_CIPHERTEXT_BYTES
    && history[r - 1].epoch == history[|history| - 1].epoch
  }

  ghost predicate HeaderRowOk(c: Crypto, history: seq<Header>, r: nat, row: StoredHeader) {
    && 1 <= r <= |history|
    && row == StoredHeader(history[r - 1], c.DigestOfHeader(history[r - 1]))
  }

  /** `history` is the full chain of accepted headers: it verifies against the list. */
  ghost predicate ChainOk(c: Crypto, l: D.List, history: seq<Header>) {
    && H.VerifyHeaderChain(c, l, None, history).Ok?
    && forall k | 0 <= k < |history| :: history[k].revision == k + 1
  }

  /** The stored headers are the last ones of the history, and nothing else. */
  ghost predicate HeadersOk(env: Env, headers: map<U64, StoredHeader>, history: seq<Header>) {
    && (forall r: U64 :: r in headers <==> Retained(r, |history|, env.headerRetention))
    && (forall r | r in headers :: HeaderRowOk(env.crypto, history, r, headers[r]))
  }

  /** The stored bodies are a run that ends at the latest revision, within the budget. */
  ghost predicate BodiesOk(env: Env, bodies: Bodies, history: seq<Header>) {
    && |history| < U64_LIMIT
    && RunEndsAt(bodies, |history|)
    && Total(bodies) <= env.byteBudget
    && forall r | r in bodies :: BodyOk(env.crypto, history, r, bodies[r])
  }

  ghost predicate HistoryIs(env: Env, revision: U64, l: D.List, headers: map<U64, StoredHeader>, bodies: Bodies,
                            history: seq<Header>) {
    && |history| == revision
    && ChainOk(env.crypto, l, history)
    && HeadersOk(env, headers, history)
    && BodiesOk(env, bodies, history)
  }

  ghost predicate HistoryOk(env: Env, revision: U64, entries: seq<Entry>, headers: map<U64, StoredHeader>,
                            bodies: Bodies) {
    && D.Replay(env.crypto, entries).Ok?
    && exists history :: HistoryIs(env, revision, D.Replay(env.crypto, entries).value, headers, bodies, history)
  }

  // ---------------------------------------------------------------------------------------------
  // Checkpoints

  ghost predicate CheckpointOk(c: Crypto, id: Text, devices: Devices, i: Text, p: Checkpoint) {
    && i in devices && devices[i].state == Approved
    && p.deviceId == i && p.vaultId == id
    && Checkpoints.CheckpointSigned(c, p, devices[i].signingKey)
  }

  /** Each stored checkpoint was signed by the current member it is filed under. */
  ghost predicate CheckpointsOk(c: Crypto, id: Text, devices: Devices, checkpoints: map<Text, Checkpoint>) {
    forall i | i in checkpoints :: CheckpointOk(c, id, devices, i, checkpoints[i])
  }

  // ---------------------------------------------------------------------------------------------
  // Vaults and the store

  ghost predicate VaultOk(env: Env, v: Vault) {
    && LogOk(env.crypto, v.id, v.headIndex, v.epoch, v.entries, v.devices)
    && RolesOk(v.devices, v.pairings)
    && NoneLockedOut(v.epoch, v.devices, v.packages)
    && PackagesOk(env.crypto, v.id, v.devices, v.packages)
    && HistoryOk(env, v.currentRevision, v.entries, v.headers, v.ciphertexts)
    && CheckpointsOk(env.crypto, v.id, v.devices, v.checkpoints)
  }

  ghost predicate StateOk(env: Env, st: State) {
    && (forall o | o in st.vaults :: VaultOk(env, st.vaults[o]))
    && (forall o, p | o in st.vaults && p in st.vaults && o != p :: st.vaults[o].id != st.vaults[p].id)
  }
}
