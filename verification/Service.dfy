/** The sync service as the object that runs: tables in fields, transactions that commit or roll back,
    and the nonce keeper's second write. Each method is proved against `Operations`. */
module Service {
  import opened Basics
  import opened Records
  import opened Tables
  import opened Operations
  import opened Retention
  import opened VaultInvariant
  import opened VaultSteps
  import opened ServiceRuns
  import opened DeviceListObject
  import opened Lookups
  import ServicePromises
  import D = DeviceLog
  import H = Headers

  const DEFAULT_BYTE_BUDGET: nat := 128 * 1024 * 1024
  const MAX_HEADER_RETENTION: U64 := 10000

  /** What the loops need from a sound vault. */
  lemma SoundVault(env: Env, v: Vault)
    requires VaultOk(env, v)
    ensures TokensDistinct(v.devices) && RolesOk(v.devices, v.pairings)
    ensures Indexed(v.entries, 0) && |v.entries| < U64_LIMIT
  {
    hide RolesOk, NoneLockedOut, PackagesOk, HistoryOk, CheckpointsOk, D.Replay;
    LogTokensDistinct(env.crypto, v);
    D.ReplayWellFormed(env.crypto, v.entries);
  }

  /** The stored list, extended by one entry in place. */
  method GrowList(c: Crypto, v: Vault, e: Entry) returns (r: Result<DeviceList, Error>)
    requires Indexed(v.entries, 0) && |v.entries| < U64_LIMIT
    ensures r.Ok? ==> fresh(r.value) && Grow(c, v, e) == Ok(r.value.View())
    ensures r.Err? ==> Grow(c, v, e) == Err(r.error)
  {
    hide D.Extend, D.Replay;
    var loaded := LoadList(c, v.entries);
    if loaded.Err? {
      return Err(Corrupt);
    }
    var list := loaded.value;
    var step := list.Extend(c, e);
    if step.Err? {
      return Err(Invalid);
    }
    return Ok(list);
  }

  /** Adds a confirmed pairing as a device: log entry, device row, key package, in that order. */
  method ApproveBody(env: Env, v: Vault, actor: Actor, e: Entry, k: KeyPackage, now: Time)
      returns (r: Result<Vault, Error>)
    requires Indexed(v.entries, 0) && |v.entries| < U64_LIMIT
    ensures r == ApproveTx(env, v, actor, e, k, now)
    ensures VaultOk(env, v) && ActorIn(v, actor) && r.Ok? ==> VaultOk(env, r.value)
  {
    hide VaultOk, ActorIn;
    if VaultOk(env, v) && ActorIn(v, actor) && ApproveTx(env, v, actor, e, k, now).Ok? {
      ApproveKeeps(env, v, actor, e, k, now);
    }
    hide Grow, PackageSigned, D.Replay, D.Extend;
    var d :- RequireActivated(v, actor);
    if e.kind != D.ADD || e.signer != d.deviceId || e.vaultId != v.id {
      return Err(Forbidden);
    }
    if e.subject !in v.pairings {
      return Err(NotFound);
    }
    var pairing := v.pairings[e.subject];
    if pairing.state != Confirmed || now >= pairing.expiresAt {
      return Err(Conflict);
    }
    if pairing.signingKey != e.signingKey || pairing.packageKey != e.packageKey {
      return Err(Forbidden);
    }
    if e.index != v.headIndex + 1 {
      return Err(Conflict);
    }
    var list :- GrowList(env.crypto, v, e);
    if k.recipient != e.subject || !PackageFits(env.crypto, v, d, k, v.epoch, e) {
      return Err(Invalid);
    }
    if !PackageSigned(env.crypto, k, d.signingKey) {
      return Err(Invalid);
    }
    var w :- AppendEntry(v, e);
    w :- PutDevice(w, Device(e.subject, pairing.token, e.signingKey, e.packageKey, Approved, e.index, 0));
    w := w.(packages := w.packages[k.recipient := k]);
    w := w.(pairings := w.pairings - {e.subject});
    return Ok(w);
  }

  /** Removes a device or rotates the key, handing the new epoch's key to every survivor. */
  method RekeyBody(env: Env, v: Vault, actor: Actor, kind: Text, e: Entry, packages: seq<KeyPackage>)
      returns (r: Result<Vault, Error>)
    requires Indexed(v.entries, 0) && |v.entries| < U64_LIMIT
    ensures r == RekeyTx(env, v, actor, kind, e, packages)
  {
    hide Grow, Distribute, D.Replay, D.Extend, CommitRekey;
    var d :- RequireActivated(v, actor);
    if e.kind != kind || e.signer != d.deviceId || e.vaultId != v.id {
      return Err(Forbidden);
    }
    if e.index != v.headIndex + 1 {
      return Err(Conflict);
    }
    var list :- GrowList(env.crypto, v, e);
    var expected := (set i | i in list.members && list.members[i].removedIndex == 0) - {d.deviceId};
    assert expected == list.View().Current() - {d.deviceId};
    if |packages| != |expected| {
      return Err(Invalid);
    }
    var table :- DistributeLoop(env.crypto, v, d, e, expected, packages);
    r := CommitRekeyBody(v, d, kind, e, table);
  }

  method CommitRekeyBody(v: Vault, d: Device, kind: Text, e: Entry, table: map<Text, KeyPackage>)
      returns (r: Result<Vault, Error>)
    ensures r == CommitRekey(v, d, kind, e, table)
  {
    hide RekeyedDevices, TokenFree;
    var w :- AppendEntry(v, e);
    if !TokenFree(v.devices, d) {
      return Err(Conflict);
    }
    var devices := RekeyRows(kind, d.deviceId, e, v.devices);
    w := w.(packages := table, devices := devices, pairings := map[], epoch := e.epochAfter);
    if kind == D.REMOVE {
      w := w.(checkpoints := w.checkpoints - {e.subject});
    }
    return Ok(w);
  }

  /** Rewrites the device rows one after the other. */
  method RekeyRows(kind: Text, signer: Text, e: Entry, devices: Devices) returns (after: Devices)
    ensures after == RekeyedDevices(kind, signer, e, devices)
  {
    after := devices;
    var left := devices.Keys;
    while left != {}
      invariant left <= devices.Keys && after.Keys == devices.Keys
      invariant forall i | i in devices :: after[i] == if i in left then devices[i]
                else RekeyedDevice(kind, signer, e, devices[i])
      decreases |left|
    {
      var i :| i in left;
      var device := devices[i];
      if kind == D.REMOVE && device.deviceId == e.subject {
        device := device.(state := Revoked);
      } else if device.deviceId == signer && device.state == Approved {
        device := device.(activatedEpoch := e.epochAfter);
      }
      after := after[i := device];
      left := left - {i};
    }
  }

  method UpgradeKeyBody(env: Env, v: Vault, actor: Actor, e: Entry) returns (r: Result<Vault, Error>)
    requires Indexed(v.entries, 0) && |v.entries| < U64_LIMIT
    ensures r == UpgradeKeyTx(env, v, actor, e)
    ensures VaultOk(env, v) && ActorIn(v, actor) && r.Ok? ==> VaultOk(env, r.value)
  {
    hide VaultOk, ActorIn;
    if VaultOk(env, v) && ActorIn(v, actor) && UpgradeKeyTx(env, v, actor, e).Ok? {
      UpgradeKeyKeeps(env, v, actor, e);
    }
    hide Grow, D.Replay, D.Extend;
    var d :- RequireActivated(v, actor);
    if e.kind != D.KEY || e.signer != d.deviceId || e.vaultId != v.id {
      return Err(Forbidden);
    }
    if e.index != v.headIndex + 1 {
      return Err(Conflict);
    }
    var list :- GrowList(env.crypto, v, e);
    var w :- AppendEntry(v, e);
    d := d.(packageKey := e.packageKey);
    r := PutDevice(w, d);
  }

  /** Accepts one snapshot: checks, frees space, stores header and body, prunes. */
  method UploadBody(env: Env, v: Vault, actor: Actor, h: Header, body: seq<Byte>) returns (r: Result<Vault, Error>)
    requires Indexed(v.entries, 0) && |v.entries| < U64_LIMIT
    ensures r == UploadTx(env, v, actor, h, body)
  {
    hide D.Replay, H.VerifyHeader, MakeRoom, H.ValidHeader, H.CiphertextMatches, LatestHeader;
    var d :- RequireActivated(v, actor);
    if !H.ValidHeader(env.crypto, h) {
      return Err(Invalid);
    }
    if h.vaultId != v.id || h.deviceId != d.deviceId {
      return Err(Forbidden);
    }
    if CheckedNext(v.currentRevision) != Some(h.revision) || h.epoch != v.epoch || h.listIndex != v.headIndex {
      return Err(Conflict);
    }
    if !H.CiphertextMatches(env.crypto, h, body) {
      return Err(Invalid);
    }
    var loaded := LoadList(env.crypto, v.entries);
    if loaded.Err? {
      return Err(Corrupt);
    }
    var list := loaded.value;
    var previous: Option<Header> := None;
    if v.currentRevision > 0 {
      var latest := LatestHeaderScan(v);
      if latest.None? {
        return Err(NotFound);
      }
      if h.previousDigest != latest.value.digest {
        return Err(Conflict);
      }
      previous := Some(latest.value.header);
    }
    var verified := H.VerifyHeader(env.crypto, D.List(list.vaultId, list.members, list.digests, list.epochs), previous,
                                   h);
    if verified.Err? {
      return Err(Invalid);
    }
    var kept :- MakeRoomLoop(v.ciphertexts, v.currentRevision, |body|, env.byteBudget);
    if h.revision in v.headers {
      return Err(Conflict);
    }
    var headers := v.headers[h.revision := StoredHeader(h, env.crypto.DigestOfHeader(h))];
    var bodies: Bodies := kept[h.revision := body];
    if previous.Some? && previous.value.epoch < h.epoch {
      bodies := From(bodies, h.revision);
    }
    if h.revision > env.headerRetention {
      headers := PruneHeaders(headers, h.revision - env.headerRetention + 1);
    }
    return Ok(v.(currentRevision := h.revision, headers := headers, ciphertexts := bodies));
  }

  method VaultBody(env: Env, v: Vault, actor: Actor, op: Op, now: Time) returns (r: Result<Vault, Error>)
    requires Indexed(v.entries, 0) && |v.entries| < U64_LIMIT
    requires !op.CreateVault? && !op.BeginPairing? && !op.Reset?
    ensures r == VaultTx(env, v, actor, op, now)
  {
    hide AnswerTx, ConfirmTx, CancelTx, ApproveTx, ActivateTx, RekeyTx, UpgradeKeyTx, UploadTx, PutCheckpointTx;
    match op
    case AnswerPairing(id, message) => r := AnswerTx(v, actor, id, message, now);
    case ConfirmPairing(message) => r := ConfirmTx(v, actor, message);
    case CancelPairing(id) => r := CancelTx(v, actor, id);
    case Approve(e, k) => r := ApproveBody(env, v, actor, e, k, now);
    case Activate(digest) => r := ActivateTx(env, v, actor, digest);
    case Remove(e, packages) => r := RekeyBody(env, v, actor, D.REMOVE, e, packages);
    case Rotate(e, packages) => r := RekeyBody(env, v, actor, D.ROTATE, e, packages);
    case UpgradeKey(e) => r := UpgradeKeyBody(env, v, actor, e);
    case Upload(h, body) => r := UploadBody(env, v, actor, h, body);
    case PutCheckpoint(p) => r := PutCheckpointTx(env, v, actor, p, now);
  }

  /** Offers a pairing: the token's old pairing goes, expired records are purged, then the row is put. */
  method BeginBody(st: State, caller: Caller, o: Offer, now: Time) returns (r: Result<State, Error>)
    requires caller.owner in st.vaults
    requires TokensDistinct(st.vaults[caller.owner].devices)
    requires RolesOk(st.vaults[caller.owner].devices, st.vaults[caller.owner].pairings)
    ensures r == BeginTx(st, caller, o, now)
  {
    hide DeviceByToken, PairingByToken;
    var v := st.vaults[caller.owner];
    var device := DeviceByTokenScan(v.devices, caller.token);
    if device.Some? && device.value.state != Revoked {
      return Err(Forbidden);
    }
    if o.deviceId in v.devices {
      return Err(Conflict);
    }
    var previous := PairingByTokenScan(v.pairings, caller.token);
    if previous.Some? {
      v := v.(pairings := v.pairings - {previous.value.deviceId});
    }
    var working := PurgeExpired(st.(vaults := st.vaults[caller.owner := v]), now);
    v := working.vaults[caller.owner];
    if |v.pairings| >= MAX_PENDING_PAIRINGS {
      return Err(Quota);
    }
    var p := Pairing(o.deviceId, caller.token, o.signingKey, o.packageKey, o.message, [], [], Offered,
                     now + PAIRING_LIFETIME);
    return Ok(working.(vaults := working.vaults[caller.owner := v.(pairings := v.pairings[o.deviceId := p])]));
  }

  /** The checks before the signature, on the stored tables. */
  method AuthoriseBody(env: Env, st: State, caller: Caller, op: Op, now: Time) returns (r: Result<Grant, Error>)
    requires StateOk(env, st)
    ensures r == Authorise(env, st, caller, op, now)
  {
    hide VaultOk, D.Extend, ActorFor;
    if !caller.Known() {
      return Err(Forbidden);
    }
    if op.CreateVault? {
      if caller.owner in st.vaults {
        return Err(VaultExists);
      }
      var list := VerifyDeviceList(env.crypto, [op.entry]);
      if list.Err? {
        return Err(Invalid);
      }
      return Ok(Grant(OWNER_SCOPE + caller.owner, op.entry.signingKey, None));
    }
    if caller.owner !in st.vaults {
      return Err(NoVault);
    }
    var v := st.vaults[caller.owner];
    if op.BeginPairing? {
      if !ValidMessage(op.offer.message) || !ValidOffer(env.crypto, v, op.offer) {
        return Err(Invalid);
      }
      return Ok(Grant(OWNER_SCOPE + caller.owner, op.offer.signingKey, None));
    }
    SoundVault(env, v);
    var actor :- ActorForScan(v, caller, now);
    return Ok(Grant(v.id + SLASH + ActorId(actor), ActorKey(actor), Some(actor)));
  }

  method PerformBody(env: Env, st: State, caller: Caller, op: Op, actor: Option<Actor>, now: Time)
      returns (r: Result<State, Error>)
    requires StateOk(env, st)
    requires !op.CreateVault? ==> caller.owner in st.vaults
    requires !op.CreateVault? && !op.BeginPairing? ==> actor.Some?
    ensures r == Perform(env, st, caller, op, actor, now)
  {
    hide VaultOk, VaultTx, BeginTx;
    if caller.owner in st.vaults {
      SoundVault(env, st.vaults[caller.owner]);
    }
    match op
    case CreateVault(e) => r := CreateTx(st, caller, e);
    case BeginPairing(o) => r := BeginBody(st, caller, o, now);
    case Reset(epoch) => r := ResetTx(st, caller, actor.value, epoch);
    case _ =>
      var v :- VaultBody(env, st.vaults[caller.owner], actor.value, op, now);
      r := Ok(st.(vaults := st.vaults[caller.owner := v]));
  }

  lemma Extended(env: Env, events: seq<Event>, ev: Event)
    ensures Run(env, events + [ev]) == Step(env, Run(env, events), ev).state
  {
    hide Step;
    assert (events + [ev])[..|events|] == events;
  }

  lemma ApprovedByToken(env: Env, v: Vault, caller: Caller, d: Text, now: Time)
    requires VaultOk(env, v) && ServicePromises.Speaks(v, caller, d)
    ensures ActorFor(v, caller, now).Ok? && RequireApproved(ActorFor(v, caller, now).value).Ok?
  {
    hide VaultOk, ActorFor;
    ServicePromises.TokenFindsDevice(env, v, caller, d, now);
  }

  const RECEIPT_KEY_BYTES: nat := 64

  /** A service, provided the receipt key has the size of a private key. */
  method NewService(crypto: Crypto, receiptKey: seq<Byte>, byteBudget: int, headerRetention: U64)
    returns (service: Option<SyncService>)
    ensures service.Some? <==> |receiptKey| == RECEIPT_KEY_BYTES
    ensures service.Some? ==> fresh(service.value) && service.value.Valid() && service.value.View() == EMPTY
  {
    if |receiptKey| != RECEIPT_KEY_BYTES {
      return None;
    }
    var made := new SyncService(crypto, byteBudget, headerRetention);
    return Some(made);
  }

  /** The service object. */
  class SyncService {
    const env: Env
    var vaults: map<Text, Vault>
    var nonces: map<NonceKey, Time>
    ghost var events: seq<Event>

    ghost function View(): State
      reads this
    {
      State(vaults, nonces)
    }

    /** The tables are those of the state that the events so far lead to. */
    ghost predicate Valid()
      reads this
    {
      env.Valid() && View() == Run(env, events)
    }

    /** Missing limits get their defaults. */
    constructor (crypto: Crypto, byteBudget: int, headerRetention: U64)
      ensures Valid() && events == [] && View() == EMPTY
      ensures env.byteBudget == (if byteBudget <= 0 then DEFAULT_BYTE_BUDGET else byteBudget)
      ensures env.headerRetention == (if headerRetention == 0 then MAX_HEADER_RETENTION else headerRetention)
    {
      env := Env(crypto,
                 if byteBudget <= 0 then DEFAULT_BYTE_BUDGET else byteBudget,
                 if headerRetention == 0 then MAX_HEADER_RETENTION else headerRetention);
      vaults := map[];
      nonces := map[];
      events := [];
    }

    /** One signed request: the transaction commits or leaves the tables alone, and the nonce of a request
        that failed after verification is written again on its own. `recovers` says whether that write succeeds. */
    method Update(caller: Caller, q: SignedRequest, op: Op, clock: Clock, recovers: bool)
        returns (answer: Result<(), Error>)
      requires Valid()
      modifies this`vaults, this`nonces, this`events
      ensures Valid()
      ensures
        var out := Submit(env, old(View()), caller, q, op, clock);
        && answer == out.answer
        && events == old(events) + [Request(caller, q, op, clock)]
                     + (if out.spent.Some? && recovers then [KeepNonce(out.spent.value)] else [])
    {
      hide VaultOk, Authorise, VerifyRequest, Perform, D.Replay, ActorIn, Run;
      ghost var before := View();
      EveryReachableStateOk(env, events);
      ghost var out := Submit(env, before, caller, q, op, clock);
      Extended(env, events, Request(caller, q, op, clock));
      events := events + [Request(caller, q, op, clock)];
      var grant := AuthoriseBody(env, State(vaults, nonces), caller, op, clock.lookup);
      if grant.Err? {
        return Err(grant.error);
      }
      var verified := VerifyRequest(env, nonces, grant.value.scope, grant.value.key, caller, q, clock);
      if verified.Err? {
        return Err(verified.error);
      }
      GrantFacts(env, before, caller, op, clock.lookup);
      var working := State(vaults, verified.value);
      var result := PerformBody(env, working, caller, op, grant.value.actor, clock.act);
      if result.Ok? {
        vaults := result.value.vaults;
        nonces := result.value.nonces;
        return Ok(());
      }
      if recovers {
        Extended(env, events, KeepNonce(out.spent.value));
        events := events + [KeepNonce(out.spent.value)];
        nonces := RecordNonce(nonces, NonceKey(grant.value.scope, q.nonce), clock.record, Expiry(clock)).1;
      }
      return Err(result.error);
    }

    method Maintain(now: Time)
      requires Valid()
      modifies this`vaults, this`nonces, this`events
      ensures Valid() && events == old(events) + [ServiceRuns.Maintain(now)]
      ensures View() == PurgeExpired(old(View()), now)
    {
      hide Run;
      Extended(env, events, ServiceRuns.Maintain(now));
      events := events + [ServiceRuns.Maintain(now)];
      var purged := PurgeExpired(State(vaults, nonces), now);
      vaults := purged.vaults;
      nonces := purged.nonces;
    }

    method AdminReset(owner: Text) returns (r: Result<(), Error>)
      requires Valid()
      modifies this`vaults, this`events
      ensures Valid() && events == old(events) + [ServiceRuns.AdminReset(owner)]
      ensures r.Ok? <==> owner in old(vaults)
      ensures vaults == old(vaults) - {owner} && nonces == old(nonces)
    {
      hide Submit, Run;
      Extended(env, events, ServiceRuns.AdminReset(owner));
      events := events + [ServiceRuns.AdminReset(owner)];
      if owner !in vaults {
        return Err(NotFound);
      }
      vaults := vaults - {owner};
      return Ok(());
    }

    /** The latest snapshot, for an approved device; when there is one it always comes, and it verifies. */
    method Snapshot(caller: Caller, now: Time) returns (r: Result<(StoredHeader, seq<Byte>), Error>)
      requires Valid()
      ensures r == ServicePromises.Snapshot(View(), caller, now)
      ensures r.Ok? ==> H.CiphertextMatches(env.crypto, r.value.0.header, r.value.1)
      ensures
        && caller.Known() && caller.owner in vaults && vaults[caller.owner].currentRevision > 0
        && (exists d :: ServicePromises.Speaks(vaults[caller.owner], caller, d))
        ==> r.Ok?
    {
      hide VaultOk, ActorFor, H.CiphertextMatches, D.Replay, H.VerifyHeader, Run, ServicePromises.Speaks;
      EveryReachableStateOk(env, events);
      if !caller.Known() {
        return Err(Forbidden);
      }
      if caller.owner !in vaults {
        return Err(NoVault);
      }
      var v := vaults[caller.owner];
      SoundVault(env, v);
      if d :| ServicePromises.Speaks(v, caller, d) {
        ApprovedByToken(env, v, caller, d, now);
      }
      var actor :- ActorForScan(v, caller, now);
      var device :- RequireApproved(actor);
      if v.currentRevision == 0 {
        return Err(NotFound);
      }
      ServicePromises.LatestIsStored(env, v);
      return Ok((v.headers[v.currentRevision], v.ciphertexts[v.currentRevision]));
    }
  }
}
