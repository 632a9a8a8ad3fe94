/** The transactions of the sync service, as functions from the stored state to the next one. */
module Operations {
  import opened Basics
  import opened Records
  import opened Tables
  import D = DeviceLog
  import H = Headers
  import Checkpoints
  import opened Retention

  const REQUEST_SKEW: nat := 5 * 60
  const NONCE_RETENTION: nat := 2 * REQUEST_SKEW + 60

  datatype Caller = Caller(owner: Text, token: Text, bearer: Text) {
    predicate Known() {
      owner != [] && token != [] && bearer != []
    }
  }

  datatype SignedRequest = SignedRequest(
    verb: Text, target: Text, body: seq<Byte>, timestamp: U64, nonce: Text, signature: Text)

  /** The clock readings one request takes, in the order it takes them. */
  datatype Clock = Clock(lookup: Time, skew: Time, stamp: Time, record: Time, act: Time) {
    predicate Ordered() {
      lookup <= skew <= stamp <= record <= act
    }
  }

  datatype Offer = Offer(deviceId: Text, signingKey: Text, packageKey: Text, message: seq<Byte>)

  datatype Op =
    | CreateVault(entry: Entry)
    | BeginPairing(offer: Offer)
    | AnswerPairing(deviceId: Text, message: seq<Byte>)
    | ConfirmPairing(message: seq<Byte>)
    | CancelPairing(deviceId: Text)
    | Approve(entry: Entry, package: KeyPackage)
    | Activate(packageDigest: Text)
    | Remove(entry: Entry, packages: seq<KeyPackage>)
    | Rotate(entry: Entry, packages: seq<KeyPackage>)
    | UpgradeKey(entry: Entry)
    | Upload(header: Header, ciphertext: seq<Byte>)
    | PutCheckpoint(checkpoint: Checkpoint)
    | Reset(epoch: U64)

  /** Who a token speaks for in a vault. */
  datatype Actor = ByDevice(device: Device) | ByPairing(pairing: Pairing)

  // ---------------------------------------------------------------------------------------------
  // Requests

  /** The service clock in whole seconds, zero before the epoch. */
  function Unix(t: Time): nat {
    if t < 0 then 0 else t / SECOND
  }

  predicate WithinSkew(timestamp: nat, now: nat) {
    if timestamp > now then timestamp - now <= REQUEST_SKEW else now - timestamp <= REQUEST_SKEW
  }

  predicate RequestSigned(c: Crypto, key: Text, caller: Caller, q: SignedRequest, now: nat) {
    && c.Decodes(q.nonce, 16)
    && WithinSkew(q.timestamp, now)
    && c.SignatureHolds(
         key,
         RequestSigning(RequestFields(q.verb, q.target, c.sha256(q.body), c.sha256(caller.bearer), q.timestamp,
                                      q.nonce)),
         q.signature)
  }

  function Expiry(clock: Clock): Time {
    clock.stamp + NONCE_RETENTION * SECOND
  }

  /** The nonces after a request was verified and its nonce recorded. */
  function VerifyRequest(env: Env, nonces: map<NonceKey, Time>, scope: seq<Byte>, key: Text,
                         caller: Caller, q: SignedRequest, clock: Clock): Result<map<NonceKey, Time>, Error>
  {
    if !RequestSigned(env.crypto, key, caller, q, Unix(clock.skew)) then
      Err(BadSignature)
    else
      var (isFresh, after) := RecordNonce(nonces, NonceKey(scope, q.nonce), clock.record, Expiry(clock));
      if isFresh then Ok(after) else Err(Replayed)
  }

  const OWNER_SCOPE: seq<Byte> := Ascii("owner/")
  const SLASH: seq<Byte> := Ascii("/")

  ghost function ActorFor(v: Vault, caller: Caller, now: Time): Result<Actor, Error> {
    var device := DeviceByToken(v.devices, caller.token);
    if device.Some? && Live(device.value) then
      Ok(ByDevice(device.value))
    else
      match PairingByToken(v.pairings, caller.token)
      case None => if device.Some? then Ok(ByDevice(device.value)) else Err(Forbidden)
      case Some(p) => if now < p.expiresAt then Ok(ByPairing(p)) else Err(Forbidden)
  }

  /** What a request must be checked against before anything is changed. */
  datatype Grant = Grant(scope: seq<Byte>, key: Text, actor: Option<Actor>)

  function ActorId(a: Actor): Text {
    match a case ByDevice(d) => d.deviceId case ByPairing(p) => p.deviceId
  }

  function ActorKey(a: Actor): Text {
    match a case ByDevice(d) => d.signingKey case ByPairing(p) => p.signingKey
  }

  predicate ValidMessage(m: seq<Byte>) {
    0 < |m| <= MAX_PAIRING_MESSAGE_BYTES
  }

  /** The probe entry an offer is validated through; its constant parts are always canonical. */
  predicate ValidOffer(c: Crypto, v: Vault, o: Offer) {
    && D.OpaqueId(v.id) && D.OpaqueId(o.deviceId) && v.epoch != 0
    && c.Decodes(o.signingKey, 32)
    && (c.Decodes(o.packageKey, D.X25519_KEY_BYTES) || c.Decodes(o.packageKey, D.XWING_KEY_BYTES))
  }

  /** The checks that run before the signature is verified. */
  ghost function Authorise(env: Env, st: State, caller: Caller, op: Op, now: Time): Result<Grant, Error> {
    var known :- Need(caller.Known(), Forbidden);
    if op.CreateVault? then
      var free :- Need(caller.owner !in st.vaults, VaultExists);
      var verified :- Need(D.Replay(env.crypto, [op.entry]).Ok?, Invalid);
      Ok(Grant(OWNER_SCOPE + caller.owner, op.entry.signingKey, None))
    else
      var found :- Need(caller.owner in st.vaults, NoVault);
      var v := st.vaults[caller.owner];
      if op.BeginPairing? then
        var message :- Need(ValidMessage(op.offer.message), Invalid);
        var probe :- Need(ValidOffer(env.crypto, v, op.offer), Invalid);
        Ok(Grant(OWNER_SCOPE + caller.owner, op.offer.signingKey, None))
      else
        var actor :- ActorFor(v, caller, now);
        Ok(Grant(v.id + SLASH + ActorId(actor), ActorKey(actor), Some(actor)))
  }

  function RequireApproved(actor: Actor): Result<Device, Error> {
    if actor.ByDevice? && actor.device.state == Approved then Ok(actor.device) else Err(Forbidden)
  }

  function RequireActivated(v: Vault, actor: Actor): Result<Device, Error> {
    var d :- RequireApproved(actor);
    if d.activatedEpoch == v.epoch then Ok(d) else Err(NotActivated)
  }

  // ---------------------------------------------------------------------------------------------
  // Key packages

  predicate PackageSigned(c: Crypto, k: KeyPackage, key: Text) {
    && D.OpaqueId(k.vaultId) && D.OpaqueId(k.sender) && D.OpaqueId(k.recipient)
    && k.epoch != 0 && D.ValidDigest(c, k.entryDigest)
    && c.DecodesWithin(k.ciphertext, 16, 64 * 1024)
    && c.SignatureHolds(key, PackageSigning(k), k.signature)
  }

  predicate PackageFits(c: Crypto, v: Vault, sender: Device, k: KeyPackage, epoch: U64, e: Entry) {
    && k.vaultId == v.id && k.sender == sender.deviceId && k.epoch == epoch
    && k.entryDigest == c.DigestOfEntry(e)
  }

  /** Stores one package per survivor: each must be expected, and none may come twice. */
  function Distribute(c: Crypto, v: Vault, sender: Device, e: Entry, expected: set<Text>,
                      packages: seq<KeyPackage>, table: map<Text, KeyPackage>): Result<map<Text, KeyPackage>, Error>
    decreases |packages|
  {
    if packages == [] then
      Ok(table)
    else
      var k := packages[0];
      var isExpected :- Need(k.recipient in expected, Invalid);
      var fits :- Need(PackageFits(c, v, sender, k, e.epochAfter, e), Invalid);
      var signed :- Need(PackageSigned(c, k, sender.signingKey), Invalid);
      Distribute(c, v, sender, e, expected - {k.recipient}, packages[1..], table[k.recipient := k])
  }

  // ---------------------------------------------------------------------------------------------
  // The device list

  /** The stored list with one more entry on top, checked as the service checks it. */
  function Grow(c: Crypto, v: Vault, e: Entry): Result<D.List, Error> {
    match D.Replay(c, v.entries)
    case Err(_) => Err(Corrupt)
    case Ok(l) =>
      match D.Extend(c, l, e)
      case Err(_) => Err(Invalid)
      case Ok(n) => Ok(n)
  }

  function AppendEntry(v: Vault, e: Entry): (r: Result<Vault, Error>)
    ensures r.Ok? ==> r.value.id == v.id
    ensures r.Ok? ==> r.value.pairings == v.pairings && r.value.devices == v.devices
  {
    if |v.entries| + 1 != e.index then Err(Conflict)
    else Ok(v.(entries := v.entries + [e], headIndex := e.index))
  }

  function PutDevice(v: Vault, d: Device): (r: Result<Vault, Error>)
    ensures r.Ok? ==> r.value.id == v.id
    ensures r.Ok? ==> r.value.pairings == v.pairings && r.value.devices == v.devices[d.deviceId := d]
  {
    if Live(d) && !TokenFree(v.devices, d) then Err(Conflict)
    else Ok(v.(devices := v.devices[d.deviceId := d]))
  }

  // ---------------------------------------------------------------------------------------------
  // Operations on one vault

  function AnswerTx(v: Vault, actor: Actor, id: Text, message: seq<Byte>, now: Time): (r: Result<Vault, Error>)
    ensures r.Ok? ==> r.value.id == v.id
    ensures r.Ok? ==> r.value.devices == v.devices
  {
    var d :- RequireActivated(v, actor);
    var valid :- Need(ValidMessage(message), Invalid);
    var found :- Need(id in v.pairings, NotFound);
    var p := v.pairings[id];
    var offered :- Need(p.state == Offered && now < p.expiresAt, Conflict);
    Ok(v.(pairings := v.pairings[p.deviceId := p.(answer := message, state := Answered)]))
  }

  function ConfirmTx(v: Vault, actor: Actor, message: seq<Byte>): (r: Result<Vault, Error>)
    ensures r.Ok? ==> r.value.id == v.id
    ensures r.Ok? ==> r.value.devices == v.devices
  {
    if actor.ByDevice? then Err(Forbidden)
    else if !ValidMessage(message) then Err(Invalid)
    else
      var p := actor.pairing;
      if p.state != Answered then Err(Conflict)
      else Ok(v.(pairings := v.pairings[p.deviceId := p.(confirm := message, state := Confirmed)]))
  }

  function CancelTx(v: Vault, actor: Actor, id: Text): (r: Result<Vault, Error>)
    ensures r.Ok? ==> r.value.id == v.id
    ensures r.Ok? ==> r.value.devices == v.devices
  {
    if actor.ByPairing? then
      Ok(v.(pairings := v.pairings - {actor.pairing.deviceId}))
    else
      var d :- RequireApproved(actor);
      Ok(v.(pairings := v.pairings - {id}))
  }

  function ApproveTx(env: Env, v: Vault, actor: Actor, e: Entry, k: KeyPackage, now: Time): (r: Result<Vault, Error>)
    ensures r.Ok? ==> r.value.id == v.id
    ensures r.Ok? ==> r.value.pairings == v.pairings - {e.subject}
  {
    var d :- RequireActivated(v, actor);
    var mine :- Need(e.kind == D.ADD && e.signer == d.deviceId && e.vaultId == v.id, Forbidden);
    var found :- Need(e.subject in v.pairings, NotFound);
    var p := v.pairings[e.subject];
    var confirmed :- Need(p.state == Confirmed && now < p.expiresAt, Conflict);
    var keys :- Need(p.signingKey == e.signingKey && p.packageKey == e.packageKey, Forbidden);
    var next :- Need(e.index == v.headIndex + 1, Conflict);
    var list :- Grow(env.crypto, v, e);
    var fits :- Need(k.recipient == e.subject && PackageFits(env.crypto, v, d, k, v.epoch, e), Invalid);
    var signed :- Need(PackageSigned(env.crypto, k, d.signingKey), Invalid);
    var appended :- AppendEntry(v, e);
    var placed :- PutDevice(appended, Device(e.subject, p.token, e.signingKey, e.packageKey, Approved, e.index, 0));
    Ok(placed.(packages := placed.packages[k.recipient := k], pairings := placed.pairings - {e.subject}))
  }

  function ActivateTx(env: Env, v: Vault, actor: Actor, digest: Text): (r: Result<Vault, Error>)
    ensures r.Ok? ==> r.value.id == v.id
    ensures r.Ok? ==> r.value.pairings == v.pairings
  {
    var d :- RequireApproved(actor);
    var found :- Need(d.deviceId in v.packages, NotFound);
    var k := v.packages[d.deviceId];
    var current :- Need(k.epoch == v.epoch && env.crypto.digest(PackageDigest(k)) == digest, Conflict);
    PutDevice(v, d.(activatedEpoch := v.epoch))
  }

  /** The devices after a removal or rotation: the subject of a removal is revoked, and the signer, if it
      stays, already holds the new epoch's key. */
  function RekeyedDevice(kind: Text, signer: Text, e: Entry, d: Device): Device {
    if kind == D.REMOVE && d.deviceId == e.subject then d.(state := Revoked)
    else if d.deviceId == signer && d.state == Approved then d.(activatedEpoch := e.epochAfter)
    else d
  }

  function RekeyedDevices(kind: Text, signer: Text, e: Entry, devices: map<Text, Device>): map<Text, Device> {
    map i | i in devices :: RekeyedDevice(kind, signer, e, devices[i])
  }

  /** The rows a rekey writes once its packages are accepted. */
  function CommitRekey(v: Vault, d: Device, kind: Text, e: Entry,
                       table: map<Text, KeyPackage>): (r: Result<Vault, Error>)
    ensures r.Ok? ==> r.value.id == v.id
    ensures r.Ok? ==> r.value.pairings == map[]
  {
    var appended :- AppendEntry(v, e);
    var free :- Need(TokenFree(v.devices, d), Conflict);
    Ok(appended.(
      epoch := e.epochAfter,
      packages := table,
      devices := RekeyedDevices(kind, d.deviceId, e, v.devices),
      pairings := map[],
      checkpoints := if kind == D.REMOVE then v.checkpoints - {e.subject} else v.checkpoints))
  }

  /** A removal or a rotation: either way every survivor gets the new epoch's key in a package. */
  function RekeyTx(env: Env, v: Vault, actor: Actor, kind: Text, e: Entry,
                   packages: seq<KeyPackage>): (r: Result<Vault, Error>)
    ensures r.Ok? ==> r.value.id == v.id
    ensures r.Ok? ==> r.value.pairings == map[]
  {
    var d :- RequireActivated(v, actor);
    var mine :- Need(e.kind == kind && e.signer == d.deviceId && e.vaultId == v.id, Forbidden);
    var next :- Need(e.index == v.headIndex + 1, Conflict);
    var list :- Grow(env.crypto, v, e);
    var expected := list.Current() - {d.deviceId};
    var complete :- Need(|packages| == |expected|, Invalid);
    var table :- Distribute(env.crypto, v, d, e, expected, packages, map[]);
    CommitRekey(v, d, kind, e, table)
  }

  function UpgradeKeyTx(env: Env, v: Vault, actor: Actor, e: Entry): (r: Result<Vault, Error>)
    ensures r.Ok? ==> r.value.id == v.id
    ensures r.Ok? ==> r.value.pairings == v.pairings
  {
    var d :- RequireActivated(v, actor);
    var mine :- Need(e.kind == D.KEY && e.signer == d.deviceId && e.vaultId == v.id, Forbidden);
    var next :- Need(e.index == v.headIndex + 1, Conflict);
    var list :- Grow(env.crypto, v, e);
    var appended :- AppendEntry(v, e);
    PutDevice(appended, d.(packageKey := e.packageKey))
  }

  /** The newest stored header; the code asks for it only when one revision at least was accepted. */
  ghost function LatestHeader(v: Vault): Option<StoredHeader> {
    if exists r :: r in v.headers && forall s | s in v.headers :: s <= r then
      var r :| r in v.headers && forall s | s in v.headers :: s <= r;
      Some(v.headers[r])
    else
      None
  }

  ghost function PreviousHeader(v: Vault, h: Header): Result<Option<Header>, Error> {
    if v.currentRevision == 0 then Ok(None)
    else
      match LatestHeader(v)
      case None => Err(NotFound)
      case Some(latest) => if h.previousDigest != latest.digest then Err(Conflict) else Ok(Some(latest.header))
  }

  function PruneHeaders(headers: map<U64, StoredHeader>, keepFrom: nat): map<U64, StoredHeader> {
    map r | r in headers && keepFrom <= r :: headers[r]
  }

  ghost function UploadTx(env: Env, v: Vault, actor: Actor, h: Header, body: seq<Byte>): (r: Result<Vault, Error>)
    ensures r.Ok? ==> r.value.id == v.id
    ensures r.Ok? ==> r.value.pairings == v.pairings && r.value.devices == v.devices
  {
    var d :- RequireActivated(v, actor);
    var valid :- Need(H.ValidHeader(env.crypto, h), Invalid);
    var mine :- Need(h.vaultId == v.id && h.deviceId == d.deviceId, Forbidden);
    var next :- Need(CheckedNext(v.currentRevision) == Some(h.revision) && h.epoch == v.epoch
                     && h.listIndex == v.headIndex, Conflict);
    var matching :- Need(H.CiphertextMatches(env.crypto, h, body), Invalid);
    var verified :- Need(D.Replay(env.crypto, v.entries).Ok?, Corrupt);
    var previous :- PreviousHeader(v, h);
    var linked :- Need(H.VerifyHeader(env.crypto, D.Replay(env.crypto, v.entries).value, previous, h).Ok?, Invalid);
    var kept :- MakeRoom(v.ciphertexts, v.currentRevision, |body|, env.byteBudget);
    var free :- Need(h.revision !in v.headers, Conflict);
    var bodies := kept[h.revision := body];
    var headers := v.headers[h.revision := StoredHeader(h, env.crypto.DigestOfHeader(h))];
    Ok(v.(
      currentRevision := h.revision,
      ciphertexts := if previous.Some? && previous.value.epoch < h.epoch then From(bodies, h.revision) else bodies,
      headers := if h.revision > env.headerRetention then PruneHeaders(headers, h.revision - env.headerRetention + 1)
          else headers))
  }

  function PutCheckpointTx(env: Env, v: Vault, actor: Actor, p: Checkpoint, now: Time): (r: Result<Vault, Error>)
    ensures r.Ok? ==> r.value.id == v.id
    ensures r.Ok? ==> r.value.pairings == v.pairings && r.value.devices == v.devices
  {
    var d :- RequireActivated(v, actor);
    var mine :- Need(p.vaultId == v.id && p.deviceId == d.deviceId, Forbidden);
    var signed :- Need(Checkpoints.CheckpointSigned(env.crypto, p, d.signingKey), Invalid);
    var recent :- Need(WithinSkew(p.observedAt, Unix(now)), Invalid);
    var forward :- Need(
      d.deviceId in v.checkpoints ==>
        && v.checkpoints[d.deviceId].observedAt < p.observedAt
        && v.checkpoints[d.deviceId].listIndex <= p.listIndex
        && v.checkpoints[d.deviceId].headerRevision <= p.headerRevision, Conflict);
    Ok(v.(checkpoints := v.checkpoints[p.deviceId := p]))
  }

  /** Every operation that changes only the caller's own vault. */
  ghost function VaultTx(env: Env, v: Vault, actor: Actor, op: Op, now: Time): (r: Result<Vault, Error>)
    ensures r.Ok? ==> r.value.id == v.id
    requires !op.CreateVault? && !op.BeginPairing? && !op.Reset?
  {
    match op
    case AnswerPairing(id, message) => AnswerTx(v, actor, id, message, now)
    case ConfirmPairing(message) => ConfirmTx(v, actor, message)
    case CancelPairing(id) => CancelTx(v, actor, id)
    case Approve(e, k) => ApproveTx(env, v, actor, e, k, now)
    case Activate(digest) => ActivateTx(env, v, actor, digest)
    case Remove(e, packages) => RekeyTx(env, v, actor, D.REMOVE, e, packages)
    case Rotate(e, packages) => RekeyTx(env, v, actor, D.ROTATE, e, packages)
    case UpgradeKey(e) => UpgradeKeyTx(env, v, actor, e)
    case Upload(h, body) => UploadTx(env, v, actor, h, body)
    case PutCheckpoint(p) => PutCheckpointTx(env, v, actor, p, now)
  }

  // ---------------------------------------------------------------------------------------------
  // Operations on the store

  function NewVault(caller: Caller, e: Entry): Vault {
    Vault(e.vaultId, 0, 1, 1, [e],
          map[e.subject := Device(e.subject, caller.token, e.signingKey, e.packageKey, Approved, 1, 1)],
          map[], map[], map[], map[], map[])
  }

  function CreateTx(st: State, caller: Caller, e: Entry): Result<State, Error> {
    if (exists o | o in st.vaults :: st.vaults[o].id == e.vaultId) then Err(Conflict)
    else Ok(st.(vaults := st.vaults[caller.owner := NewVault(caller, e)]))
  }

  ghost function WithoutPairingOf(v: Vault, token: Text): Vault {
    match PairingByToken(v.pairings, token)
    case None => v
    case Some(p) => v.(pairings := v.pairings - {p.deviceId})
  }

  ghost function BeginTx(st: State, caller: Caller, o: Offer, now: Time): Result<State, Error>
    requires caller.owner in st.vaults
  {
    var v := st.vaults[caller.owner];
    var device := DeviceByToken(v.devices, caller.token);
    var unused :- Need(device.None? || device.value.state == Revoked, Forbidden);
    var isNew :- Need(o.deviceId !in v.devices, Conflict);
    var purged := PurgeExpired(st.(vaults := st.vaults[caller.owner := WithoutPairingOf(v, caller.token)]), now);
    var w := purged.vaults[caller.owner];
    var room :- Need(|w.pairings| < MAX_PENDING_PAIRINGS, Quota);
    var p := Pairing(o.deviceId, caller.token, o.signingKey, o.packageKey, o.message, [], [], Offered,
                     now + PAIRING_LIFETIME);
    Ok(purged.(vaults := purged.vaults[caller.owner := w.(pairings := w.pairings[o.deviceId := p])]))
  }

  function ResetTx(st: State, caller: Caller, actor: Actor, epoch: U64): Result<State, Error>
    requires caller.owner in st.vaults
  {
    var d :- RequireApproved(actor);
    var current :- Need(epoch == st.vaults[caller.owner].epoch, Conflict);
    Ok(st.(vaults := st.vaults - {caller.owner}))
  }

  /** What a request does once its signature and nonce are accepted. */
  ghost function Perform(env: Env, st: State, caller: Caller, op: Op, actor: Option<Actor>,
                         now: Time): Result<State, Error>
    requires !op.CreateVault? ==> caller.owner in st.vaults
    requires !op.CreateVault? && !op.BeginPairing? ==> actor.Some?
  {
    match op
    case CreateVault(e) => CreateTx(st, caller, e)
    case BeginPairing(o) => BeginTx(st, caller, o, now)
    case Reset(epoch) => ResetTx(st, caller, actor.value, epoch)
    case _ =>
      var v :- VaultTx(env, st.vaults[caller.owner], actor.value, op, now);
      Ok(st.(vaults := st.vaults[caller.owner := v]))
  }

  // ---------------------------------------------------------------------------------------------
  // Transactions and the nonce keeper

  /** A nonce that a rolled-back transaction had found fresh. */
  datatype Spent = Spent(key: NonceKey, now: Time, expires: Time)

  /** The committed state, the answer, and what the nonce keeper still has to write. */
  datatype Outcome = Outcome(state: State, answer: Result<(), Error>, spent: Option<Spent>)

  /** One transaction: everything it does is committed, or nothing is. */
  ghost function Submit(env: Env, st: State, caller: Caller, q: SignedRequest, op: Op, clock: Clock): Outcome {
    match Authorise(env, st, caller, op, clock.lookup)
    case Err(error) => Outcome(st, Err(error), None)
    case Ok(grant) =>
      match VerifyRequest(env, st.nonces, grant.scope, grant.key, caller, q, clock)
      case Err(error) => Outcome(st, Err(error), None)
      case Ok(nonces) =>
        match Perform(env, st.(nonces := nonces), caller, op, grant.actor, clock.act)
        case Ok(after) => Outcome(after, Ok(()), None)
        case Err(error) =>
          Outcome(st, Err(error), Some(Spent(NonceKey(grant.scope, q.nonce), clock.record, Expiry(clock))))
  }

  /** The second write after a rollback. */
  function Keep(st: State, spent: Spent): State {
    st.(nonces := RecordNonce(st.nonces, spent.key, spent.now, spent.expires).1)
  }
}
