/** Which requests of callers without a device are accepted, and what they leave: the creation of a vault, offers, and
    the confirmations and cancellations of the offering device. */
module PairingRequests {
  import opened Basics
  import opened Records
  import opened Tables
  import opened Operations
  import opened VaultInvariant
  import opened ServiceRuns
  import opened RequestSignatures
  import ServicePromises
  import L = LogAcceptance
  import D = DeviceLog

  // ---------------------------------------------------------------------------------------------
  // Creation

  /** A vault of one device, the caller's, at index one and epoch one, activated, and nothing else. */
  ghost predicate FreshVault(v: Vault, caller: Caller, e: Entry) {
    && v.id == e.vaultId && v.entries == [e] && v.headIndex == 1 && v.epoch == 1 && v.currentRevision == 0
    && v.devices == map[e.subject := Device(e.subject, caller.token, e.signingKey, e.packageKey, Approved, 1, 1)]
    && v.packages == map[] && v.headers == map[] && v.ciphertexts == map[] && v.pairings == map[]
    && v.checkpoints == map[]
  }

  /** A vault is created if and only if the owner has none, the entry founds a list, the request is signed with the key
      it enters and has an unused nonce, and no other owner has a vault of that id. */
  lemma AcceptedCreationIff(env: Env, st: State, caller: Caller, q: SignedRequest, e: Entry, clock: Clock)
    ensures
      var out := Submit(env, st, caller, q, CreateVault(e), clock);
      && (out.answer.Ok? <==>
          && caller.Known() && caller.owner !in st.vaults && L.Continues(env.crypto, [], e)
          && ProperlySigned(env.crypto, e.signingKey, caller, q, Unix(clock.skew))
          && Unused(st.nonces, Ascii("owner/") + caller.owner, q, clock)
          && forall o | o in st.vaults :: st.vaults[o].id != e.vaultId)
      && (out.answer.Ok? ==>
            && caller.owner in out.state.vaults && FreshVault(out.state.vaults[caller.owner], caller, e)
            && out.state.vaults == st.vaults[caller.owner := out.state.vaults[caller.owner]])
  {
    hide D.Replay, L.Continues, RequestSigned, ProperlySigned;
    assert [] + [e] == [e];
    EmptyList(env.crypto);
    L.AppendIff(env.crypto, [], e);
    SignedIsProper(env.crypto, e.signingKey, caller, q, Unix(clock.skew));
  }

  lemma EmptyList(c: Crypto)
    ensures D.Replay(c, []).Ok?
  {
  }

  // ---------------------------------------------------------------------------------------------
  // Offers

  /** The pairings that stay when the caller makes a new offer: those of others that have not expired. */
  function Waiting(v: Vault, caller: Caller, now: Time): map<Text, Pairing> {
    map i | i in v.pairings && v.pairings[i].token != caller.token && now < v.pairings[i].expiresAt :: v.pairings[i]
  }

  /** The offer names a device id and keys that can be told to be such. */
  predicate OfferShaped(c: Crypto, o: Offer) {
    D.OpaqueId(o.deviceId) && L.Fits(c, o.signingKey, {32}) && L.Fits(c, o.packageKey, {32, 1216})
  }

  lemma OfferIsShaped(env: Env, v: Vault, o: Offer)
    requires VaultOk(env, v)
    ensures ValidOffer(env.crypto, v, o) <==> OfferShaped(env.crypto, o)
  {
    hide RolesOk, NoneLockedOut, PackagesOk, HistoryOk, CheckpointsOk, D.Replay, D.OpaqueId;
    L.FounderSigned(env.crypto, v.entries);
    L.VerifiesIff(env.crypto, v.entries);
    assert L.Continues(env.crypto, v.entries[..0], v.entries[0]);
    L.ListAtHead(env.crypto, v.entries);
    assert v.entries[0].vaultId in {v.entries[0].vaultId, v.entries[0].signer, v.entries[0].subject};
  }

  /** Nobody's live device has the token. */
  predicate NoDeviceOf(v: Vault, token: Text) {
    forall i | i in v.devices && v.devices[i].token == token :: v.devices[i].state == Revoked
  }

  lemma NoDeviceIff(v: Vault, token: Text)
    ensures
      var device := DeviceByToken(v.devices, token);
      (device.None? || device.value.state == Revoked) <==> NoDeviceOf(v, token)
  {
    if i :| i in v.devices && v.devices[i].token == token && v.devices[i].state != Revoked {
      BestExists(v.devices, token, {i}, i);
    }
  }

  /** Dropping the pairing of a token drops all that have it. */
  lemma WithoutIs(v: Vault, token: Text, i: Text)
    requires forall i | i in v.pairings :: v.pairings[i].deviceId == i
    requires forall i, j | i in v.pairings && j in v.pairings && i != j :: v.pairings[i].token != v.pairings[j].token
    ensures
      var w := WithoutPairingOf(v, token);
      && w == v.(pairings := w.pairings)
      && (i in w.pairings <==> i in v.pairings && v.pairings[i].token != token)
      && (i in w.pairings ==> w.pairings[i] == v.pairings[i])
  {
    hide PairingByToken;
  }

  lemma OnePairingPerToken(v: Vault, caller: Caller, now: Time)
    requires forall i | i in v.pairings :: v.pairings[i].deviceId == i
    requires forall i, j | i in v.pairings && j in v.pairings && i != j :: v.pairings[i].token != v.pairings[j].token
    ensures PurgePairings(WithoutPairingOf(v, caller.token), now) == v.(pairings := Waiting(v, caller, now))
  {
    hide WithoutPairingOf;
    WithoutIs(v, caller.token, []);
    var w := PurgePairings(WithoutPairingOf(v, caller.token), now);
    forall i
      ensures i in w.pairings <==> i in Waiting(v, caller, now)
      ensures i in w.pairings ==> w.pairings[i] == v.pairings[i]
    {
      WithoutIs(v, caller.token, i);
    }
    assert w.pairings == Waiting(v, caller, now);
  }

  /** The pairing an offer leaves: for ten minutes, under the caller's token. */
  function Offering(caller: Caller, o: Offer, now: Time): Pairing {
    Pairing(o.deviceId, caller.token, o.signingKey, o.packageKey, o.message, [], [], Offered, now + 600 * SECOND)
  }

  lemma OfferTx(env: Env, st: State, caller: Caller, o: Offer, now: Time)
    requires caller.owner in st.vaults && VaultOk(env, st.vaults[caller.owner])
    ensures
      var v := st.vaults[caller.owner];
      var rest := Waiting(v, caller, now);
      var done := BeginTx(st, caller, o, now);
      && (done.Ok? <==> NoDeviceOf(v, caller.token) && o.deviceId !in v.devices && |rest| < 3)
      && (done.Ok? ==>
            && caller.owner in done.value.vaults
            && done.value.vaults[caller.owner] ==
               v.(pairings := rest[o.deviceId := Offering(caller, o, now)])
            && done.value.vaults.Keys == st.vaults.Keys
            && done.value.nonces == PurgeNonces(st.nonces, now)
            && forall x | x in st.vaults && x != caller.owner ::
                 done.value.vaults[x] == PurgePairings(st.vaults[x], now))
  {
    hide VaultOk, RolesOk, DeviceByToken, WithoutPairingOf, PurgeNonces, NoDeviceOf, Waiting, PurgePairings;
    var v := st.vaults[caller.owner];
    RolesOf(env, v);
    NoDeviceIff(v, caller.token);
    OnePairingPerToken(v, caller, now);
  }

  lemma RolesOf(env: Env, v: Vault)
    requires VaultOk(env, v)
    ensures RolesOk(v.devices, v.pairings)
    ensures forall i | i in v.pairings :: v.pairings[i].deviceId == i
    ensures forall i, j | i in v.pairings && j in v.pairings && i != j :: v.pairings[i].token != v.pairings[j].token
  {
    hide LogOk, NoneLockedOut, PackagesOk, HistoryOk, CheckpointsOk;
  }

  /** In every reachable state an offer is accepted if and only if the owner has a vault, message and offer have the
      right shape, the request is signed with the offered key and has an unused nonce, nobody's live device has the
      caller's token, the id never was a device's, and fewer than three pairings of others wait. It replaces an earlier
      offer of the caller, and what has expired is purged. */
  lemma AcceptedOfferIff(env: Env, events: seq<Event>, caller: Caller, q: SignedRequest, o: Offer, clock: Clock)
    requires env.Valid() && caller.owner in Run(env, events).vaults
    ensures
      var st := Run(env, events);
      var v := st.vaults[caller.owner];
      var rest := Waiting(v, caller, clock.act);
      var out := Submit(env, st, caller, q, BeginPairing(o), clock);
      && (out.answer.Ok? <==>
          && caller.Known() && 1 <= |o.message| <= 512 && OfferShaped(env.crypto, o)
          && ProperlySigned(env.crypto, o.signingKey, caller, q, Unix(clock.skew))
          && Unused(st.nonces, Ascii("owner/") + caller.owner, q, clock)
          && NoDeviceOf(v, caller.token) && o.deviceId !in v.devices && |rest| < 3)
      && (out.answer.Ok? ==>
            && caller.owner in out.state.vaults
            && out.state.vaults[caller.owner] ==
               v.(pairings := rest[o.deviceId := Offering(caller, o, clock.act)])
            && out.state.vaults.Keys == st.vaults.Keys
            && forall x | x in st.vaults && x != caller.owner ::
                 out.state.vaults[x] == PurgePairings(st.vaults[x], clock.act))
  {
    hide Run, VaultOk, RequestSigned, ProperlySigned, ValidOffer, OfferShaped, BeginTx, Waiting, NoDeviceOf, Offering,
         PurgePairings;
    EveryReachableStateOk(env, events);
    var st := Run(env, events);
    var v := st.vaults[caller.owner];
    OfferIsShaped(env, v, o);
    SignedIsProper(env.crypto, o.signingKey, caller, q, Unix(clock.skew));
    OfferTx(env, st.(nonces := st.nonces[NonceKey(OWNER_SCOPE + caller.owner, q.nonce) := Expiry(clock)]), caller, o,
            clock.act);
  }

  // ---------------------------------------------------------------------------------------------
  // The offering device

  /** The caller's token is that of a pairing that has not expired. */
  predicate Offers(v: Vault, caller: Caller, id: Text, now: Time) {
    id in v.pairings && v.pairings[id].token == caller.token && now < v.pairings[id].expiresAt
  }

  /** Whoever presents the token of a pairing is taken for it. */
  lemma TokenFindsPairing(env: Env, v: Vault, caller: Caller, id: Text, now: Time)
    requires VaultOk(env, v) && Offers(v, caller, id, now)
    ensures ActorFor(v, caller, now) == Ok(ByPairing(v.pairings[id])) && v.pairings[id].deviceId == id
  {
    hide VaultOk;
    RolesOf(env, v);
  }

  /** A request by an offering device is accepted if and only if it is signed with the offered key, its nonce is unused,
      and the operation accepts it. */
  lemma PairingRequestIff(env: Env, st: State, caller: Caller, id: Text, q: SignedRequest, op: Op, clock: Clock)
    requires caller.Known() && caller.owner in st.vaults && StateOk(env, st)
             && Offers(st.vaults[caller.owner], caller, id, clock.lookup)
    requires !op.CreateVault? && !op.BeginPairing? && !op.Reset?
    ensures
      var v := st.vaults[caller.owner];
      var done := VaultTx(env, v, ByPairing(v.pairings[id]), op, clock.act);
      var out := Submit(env, st, caller, q, op, clock);
      && (out.answer.Ok? <==>
          && ProperlySigned(env.crypto, v.pairings[id].signingKey, caller, q, Unix(clock.skew))
          && Unused(st.nonces, v.id + Ascii("/") + id, q, clock) && done.Ok?)
      && (out.answer.Ok? ==> out.state.vaults == st.vaults[caller.owner := done.value])
  {
    hide VaultOk, VaultTx, ActorFor, RequestSigned, ProperlySigned;
    var v := st.vaults[caller.owner];
    TokenFindsPairing(env, v, caller, id, clock.lookup);
    SignedIsProper(env.crypto, v.pairings[id].signingKey, caller, q, Unix(clock.skew));
  }

  /** The offering device confirms exactly an answered pairing, with a message of a sensible length; it may cancel its
      own pairing at any stage. Of the vault nothing else changes. */
  lemma AcceptedConfirmationIff(env: Env, events: seq<Event>, caller: Caller, id: Text, q: SignedRequest,
                                message: seq<Byte>, any: Text, clock: Clock)
    requires env.Valid() && caller.Known() && caller.owner in Run(env, events).vaults
    requires Offers(Run(env, events).vaults[caller.owner], caller, id, clock.lookup)
    ensures
      var st := Run(env, events);
      var v := st.vaults[caller.owner];
      var p := v.pairings[id];
      var ready := ProperlySigned(env.crypto, p.signingKey, caller, q, Unix(clock.skew))
                   && Unused(st.nonces, v.id + Ascii("/") + id, q, clock);
      var confirmed := Submit(env, st, caller, q, ConfirmPairing(message), clock);
      var cancelled := Submit(env, st, caller, q, CancelPairing(any), clock);
      && (confirmed.answer.Ok? <==> ready && 1 <= |message| <= 512 && p.state == Answered)
      && (confirmed.answer.Ok? ==>
            confirmed.state.vaults == st.vaults[caller.owner :=
              v.(pairings := v.pairings[id := p.(confirm := message, state := Confirmed)])])
      && (cancelled.answer.Ok? <==> ready)
      && (cancelled.answer.Ok? ==>
            cancelled.state.vaults == st.vaults[caller.owner := v.(pairings := v.pairings - {id})])
  {
    hide Run, VaultOk, Submit, ActorFor, ProperlySigned, Unused;
    EveryReachableStateOk(env, events);
    var st := Run(env, events);
    TokenFindsPairing(env, st.vaults[caller.owner], caller, id, clock.lookup);
    PairingRequestIff(env, st, caller, id, q, ConfirmPairing(message), clock);
    PairingRequestIff(env, st, caller, id, q, CancelPairing(any), clock);
  }

  /** An offering device gets nothing else done. */
  lemma OffersOnlyConfirm(env: Env, st: State, caller: Caller, id: Text, q: SignedRequest, op: Op, clock: Clock)
    requires caller.Known() && caller.owner in st.vaults && StateOk(env, st)
             && Offers(st.vaults[caller.owner], caller, id, clock.lookup)
    requires !op.CreateVault? && !op.BeginPairing? && !op.Reset? && !op.ConfirmPairing? && !op.CancelPairing?
    ensures !Submit(env, st, caller, q, op, clock).answer.Ok?
  {
    hide StateOk, Submit, Grow, Distribute, D.Replay, ProperlySigned, Unused;
    PairingRequestIff(env, st, caller, id, q, op, clock);
  }

  // ---------------------------------------------------------------------------------------------
  // Maintenance

  /** Maintenance drops exactly the pairings and nonces that have expired. */
  lemma MaintenanceIsExact(st: State, now: Time, owner: Text, id: Text, key: NonceKey)
    ensures
      var t := PurgeExpired(st, now);
      && t.vaults.Keys == st.vaults.Keys
      && (owner in st.vaults ==>
            var v, w := st.vaults[owner], t.vaults[owner];
            && w == v.(pairings := w.pairings)
            && (id in w.pairings <==> id in v.pairings && now < v.pairings[id].expiresAt)
            && (id in w.pairings ==> w.pairings[id] == v.pairings[id]))
      && (key in t.nonces <==> key in st.nonces && now < st.nonces[key])
      && (key in t.nonces ==> t.nonces[key] == st.nonces[key])
  {
  }
}
