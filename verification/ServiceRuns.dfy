/** Runs of the whole service: any sequence of transactions, in any order, from an empty store. */
module ServiceRuns {
  import opened Basics
  import opened Records
  import opened Tables
  import opened Operations
  import opened VaultInvariant
  import opened VaultSteps
  import UploadStep
  import D = DeviceLog

  /** One atomic step: a signed request, the nonce keeper's second write, maintenance, or an
      administrative reset. */
  datatype Event =
    | Request(caller: Caller, request: SignedRequest, op: Op, clock: Clock)
    | KeepNonce(spent: Spent)
    | Maintain(now: Time)
    | AdminReset(owner: Text)

  ghost function Step(env: Env, st: State, ev: Event): Outcome {
    match ev
    case Request(caller, request, op, clock) => Submit(env, st, caller, request, op, clock)
    case KeepNonce(spent) => Outcome(Keep(st, spent), Ok(()), None)
    case Maintain(now) => Outcome(PurgeExpired(st, now), Ok(()), None)
    case AdminReset(owner) =>
      if owner in st.vaults then Outcome(st.(vaults := st.vaults - {owner}), Ok(()), None)
      else Outcome(st, Err(NotFound), None)
  }

  ghost function Run(env: Env, events: seq<Event>): State {
    if events == [] then EMPTY
    else Step(env, Run(env, events[..|events| - 1]), events[|events| - 1]).state
  }

  /** Event i of a run is a request that was accepted. */
  ghost predicate Accepted(env: Env, events: seq<Event>, i: nat) {
    i < |events| && events[i].Request? && Step(env, Run(env, events[..i]), events[i]).answer.Ok?
  }

  lemma RunSnoc(env: Env, events: seq<Event>, k: nat)
    requires k < |events|
    ensures Run(env, events[..k + 1]) == Step(env, Run(env, events[..k]), events[k]).state
  {
    hide Step;
    assert events[..k + 1][..k] == events[..k];
  }

  // ---------------------------------------------------------------------------------------------
  // Each step keeps every vault sound

  lemma VaultTxKeeps(env: Env, v: Vault, actor: Actor, op: Op, now: Time)
    requires env.Valid() && VaultOk(env, v) && ActorIn(v, actor)
    requires !op.CreateVault? && !op.BeginPairing? && !op.Reset?
    requires VaultTx(env, v, actor, op, now).Ok?
    ensures VaultOk(env, VaultTx(env, v, actor, op, now).value)
  {
    hide VaultOk, ActorIn, AnswerTx, ConfirmTx, CancelTx, ApproveTx, ActivateTx, RekeyTx, UpgradeKeyTx, UploadTx,
         PutCheckpointTx;
    match op
    case AnswerPairing(_, _) => PairingStepKeeps(env, v, actor, op, now);
    case ConfirmPairing(_) => PairingStepKeeps(env, v, actor, op, now);
    case CancelPairing(_) => PairingStepKeeps(env, v, actor, op, now);
    case Approve(e, k) => ApproveKeeps(env, v, actor, e, k, now);
    case Activate(digest) => ActivateKeeps(env, v, actor, digest);
    case Remove(e, packages) => RekeyKeeps(env, v, actor, D.REMOVE, e, packages);
    case Rotate(e, packages) => RekeyKeeps(env, v, actor, D.ROTATE, e, packages);
    case UpgradeKey(e) => UpgradeKeyKeeps(env, v, actor, e);
    case Upload(h, body) => UploadStep.UploadKeeps(env, v, actor, h, body);
    case PutCheckpoint(p) => PutCheckpointKeeps(env, v, actor, p, now);
  }

  lemma CreateKeeps(env: Env, st: State, caller: Caller, e: Entry)
    requires StateOk(env, st)
    requires D.Replay(env.crypto, [e]).Ok?
    requires CreateTx(st, caller, e).Ok?
    ensures StateOk(env, CreateTx(st, caller, e).value)
  {
    hide VaultOk;
    NewVaultOk(env, caller, e);
  }

  lemma NewVaultOk(env: Env, caller: Caller, e: Entry)
    requires D.Replay(env.crypto, [e]).Ok?
    ensures VaultOk(env, NewVault(caller, e))
  {
    var c, v := env.crypto, NewVault(caller, e);
    var l := D.Replay(c, [e]).value;
    assert [e][..0] == [];
    assert D.Replay(c, [e]) == D.Extend(c, D.NEW_LIST, e);
    D.ExtendFacts(c, D.NEW_LIST, e);
    assert l.members == map[e.subject := D.MemberFromEntry(e)];
    hide D.Replay, D.Extend;
    assert DevicesMatch(v.devices, l.members);
    assert HistoryIs(env, 0, l, map[], map[], []);
  }

  /** Dropping expired pairings keeps a vault sound. */
  lemma PurgeKeepsVault(env: Env, v: Vault, now: Time)
    requires VaultOk(env, v)
    ensures VaultOk(env, PurgePairings(v, now))
  {
    hide LogOk, NoneLockedOut, PackagesOk, HistoryOk, CheckpointsOk, RolesOk;
    RolesOfFewer(v.devices, v.pairings, PurgePairings(v, now).pairings);
  }

  lemma PurgeKeeps(env: Env, st: State, now: Time)
    requires StateOk(env, st)
    ensures StateOk(env, PurgeExpired(st, now))
  {
    hide VaultOk;
    forall o | o in st.vaults
      ensures VaultOk(env, PurgePairings(st.vaults[o], now))
    {
      PurgeKeepsVault(env, st.vaults[o], now);
    }
  }

  lemma PutCount(pairings: Pairings, p: Pairing)
    ensures |pairings[p.deviceId := p]| <= |pairings| + 1
  {
    var more := pairings[p.deviceId := p];
    assert more.Keys == pairings.Keys + {p.deviceId};
  }

  /** A new offer takes a token that has no other role left in the vault. */
  lemma RolesOfOffer(devices: Devices, pairings: Pairings, p: Pairing)
    requires RolesOk(devices, pairings)
    requires |pairings| < MAX_PENDING_PAIRINGS
    requires p.deviceId !in devices
    requires forall i | i in pairings :: pairings[i].token != p.token
    requires forall i | i in devices && Live(devices[i]) :: devices[i].token != p.token
    ensures RolesOk(devices, pairings[p.deviceId := p])
  {
    hide LiveTokensDiffer, Live;
    var more := pairings[p.deviceId := p];
    PutCount(pairings, p);
    assert more.Keys !! devices.Keys;
    forall i, j | i in more && j in more && i != j
      ensures more[i].token != more[j].token
    {
      assert i != p.deviceId ==> i in pairings && more[i] == pairings[i];
      assert j != p.deviceId ==> j in pairings && more[j] == pairings[j];
    }
    forall i, j | i in more && j in devices && Live(devices[j])
      ensures more[i].token != devices[j].token
    {
      assert i != p.deviceId ==> i in pairings && more[i] == pairings[i];
    }
  }

  /** A token lookup that finds no live row leaves none to find. */
  lemma NoLiveDevice(devices: Devices, token: Text)
    requires DeviceByToken(devices, token).None? || DeviceByToken(devices, token).value.state == Revoked
    ensures forall i | i in devices && Live(devices[i]) :: devices[i].token != token
  {
    if i :| i in devices && Live(devices[i]) && devices[i].token == token {
      BestExists(devices, token, {i}, i);
    }
  }

  /** Among the live rows of one token there is a best one, so the lookup finds a live row. */
  lemma {:induction false} BestExists(devices: Devices, token: Text, seen: set<Text>, best: Text)
    requires seen <= devices.Keys
    requires best in seen && best in devices && Live(devices[best]) && devices[best].token == token
    requires forall j | j in seen && devices[j].token == token && Live(devices[j]) ::
             devices[j].addedIndex <= devices[best].addedIndex
    ensures DeviceByToken(devices, token).Some? && Live(DeviceByToken(devices, token).value)
    decreases |devices.Keys - seen|
  {
    if j :| j in devices && j !in seen {
      var next := if Live(devices[j]) && devices[j].token == token
          && devices[j].addedIndex > devices[best].addedIndex then j else best;
      BestExists(devices, token, seen + {j}, next);
    } else {
      assert BestForToken(devices, token, best);
    }
  }

  lemma WithoutPairingFacts(v: Vault, token: Text)
    requires forall i | i in v.pairings :: v.pairings[i].deviceId == i
    requires forall i, j | i in v.pairings && j in v.pairings && i != j :: v.pairings[i].token != v.pairings[j].token
    ensures WithoutPairingOf(v, token) == v.(pairings := WithoutPairingOf(v, token).pairings)
    ensures PairingsFrom(v.pairings, WithoutPairingOf(v, token).pairings)
    ensures forall i | i in WithoutPairingOf(v, token).pairings :: v.pairings[i].token != token
  {
  }

  lemma PairingRoles(devices: Devices, pairings: Pairings)
    requires RolesOk(devices, pairings)
    ensures forall i | i in pairings :: pairings[i].deviceId == i
    ensures forall i, j | i in pairings && j in pairings && i != j :: pairings[i].token != pairings[j].token
  {
    hide LiveTokensDiffer;
  }

  /** Discarding a token's old pairing frees the token. */
  lemma WithoutPairingKeeps(env: Env, v: Vault, token: Text)
    requires VaultOk(env, v)
    ensures VaultOk(env, WithoutPairingOf(v, token))
    ensures forall i | i in WithoutPairingOf(v, token).pairings :: v.pairings[i].token != token
    ensures WithoutPairingOf(v, token) == v.(pairings := WithoutPairingOf(v, token).pairings)
    ensures PairingsFrom(v.pairings, WithoutPairingOf(v, token).pairings)
  {
    hide LogOk, NoneLockedOut, PackagesOk, HistoryOk, CheckpointsOk, RolesOk, WithoutPairingOf, PairingsFrom;
    PairingRoles(v.devices, v.pairings);
    WithoutPairingFacts(v, token);
    RolesOfFewer(v.devices, v.pairings, WithoutPairingOf(v, token).pairings);
  }

  /** The vault an offer is added to, after the purge. */
  lemma OfferKeeps(env: Env, v: Vault, p: Pairing, now: Time)
    requires VaultOk(env, v)
    requires DeviceByToken(v.devices, p.token).None? || DeviceByToken(v.devices, p.token).value.state == Revoked
    requires p.deviceId !in v.devices
    requires |PurgePairings(WithoutPairingOf(v, p.token), now).pairings| < MAX_PENDING_PAIRINGS
    ensures
      var w := PurgePairings(WithoutPairingOf(v, p.token), now);
      VaultOk(env, w.(pairings := w.pairings[p.deviceId := p]))
  {
    var u := WithoutPairingOf(v, p.token);
    var w := PurgePairings(u, now);
    WithoutPairingKeeps(env, v, p.token);
    PurgeKeepsVault(env, u, now);
    NoLiveDevice(v.devices, p.token);
    hide LogOk, NoneLockedOut, PackagesOk, HistoryOk, CheckpointsOk, RolesOk, WithoutPairingOf, DeviceByToken;
    RolesOfOffer(w.devices, w.pairings, p);
  }

  /** What a successful offer has checked, and the state it leaves. */
  lemma BeginFacts(st: State, caller: Caller, o: Offer, now: Time) returns (purged: State, p: Pairing)
    requires caller.owner in st.vaults
    requires BeginTx(st, caller, o, now).Ok?
    ensures p.deviceId == o.deviceId && p.token == caller.token
    ensures
      var v := st.vaults[caller.owner];
      && (DeviceByToken(v.devices, p.token).None? || DeviceByToken(v.devices, p.token).value.state == Revoked)
      && p.deviceId !in v.devices
      && purged == PurgeExpired(st.(vaults := st.vaults[caller.owner := WithoutPairingOf(v, p.token)]), now)
      && caller.owner in purged.vaults
      && purged.vaults[caller.owner] == PurgePairings(WithoutPairingOf(v, p.token), now)
      && |purged.vaults[caller.owner].pairings| < MAX_PENDING_PAIRINGS
      && var w := purged.vaults[caller.owner];
         BeginTx(st, caller, o, now).value
         == purged.(vaults := purged.vaults[caller.owner := w.(pairings := w.pairings[p.deviceId := p])])
  {
    hide WithoutPairingOf, DeviceByToken, PurgePairings;
    var v := WithoutPairingOf(st.vaults[caller.owner], caller.token);
    purged := PurgeExpired(st.(vaults := st.vaults[caller.owner := v]), now);
    p := Pairing(o.deviceId, caller.token, o.signingKey, o.packageKey, o.message, [], [], Offered,
                 now + PAIRING_LIFETIME);
  }

  /** Replacing one vault by a sound one with the same id keeps the store sound. */
  lemma ReplaceKeeps(env: Env, st: State, owner: Text, w: Vault)
    requires StateOk(env, st) && owner in st.vaults && VaultOk(env, w) && w.id == st.vaults[owner].id
    ensures StateOk(env, st.(vaults := st.vaults[owner := w]))
  {
    hide VaultOk;
  }

  lemma BeginKeeps(env: Env, st: State, caller: Caller, o: Offer, now: Time)
    requires StateOk(env, st)
    requires caller.owner in st.vaults
    requires BeginTx(st, caller, o, now).Ok?
    ensures StateOk(env, BeginTx(st, caller, o, now).value)
  {
    hide VaultOk, StateOk, BeginTx, DeviceByToken, WithoutPairingOf, PurgePairings, PurgeExpired, PairingsFrom;
    var v := st.vaults[caller.owner];
    assert VaultOk(env, v) by { VaultIsOk(env, st, caller.owner); }
    var purged, p := BeginFacts(st, caller, o, now);
    var u := WithoutPairingOf(v, caller.token);
    WithoutPairingKeeps(env, v, caller.token);
    ReplaceKeeps(env, st, caller.owner, u);
    PurgeKeeps(env, st.(vaults := st.vaults[caller.owner := u]), now);
    OfferKeeps(env, v, p, now);
    var w := purged.vaults[caller.owner];
    ReplaceKeeps(env, purged, caller.owner, w.(pairings := w.pairings[p.deviceId := p]));
  }

  lemma VaultIsOk(env: Env, st: State, owner: Text)
    requires StateOk(env, st) && owner in st.vaults
    ensures VaultOk(env, st.vaults[owner])
  {
    hide VaultOk;
  }

  lemma PerformKeeps(env: Env, st: State, caller: Caller, op: Op, actor: Option<Actor>, now: Time)
    requires env.Valid() && StateOk(env, st)
    requires !op.CreateVault? ==> caller.owner in st.vaults
    requires op.CreateVault? ==> D.Replay(env.crypto, [op.entry]).Ok?
    requires !op.CreateVault? && !op.BeginPairing? ==> actor.Some? && ActorIn(st.vaults[caller.owner], actor.value)
    requires Perform(env, st, caller, op, actor, now).Ok?
    ensures StateOk(env, Perform(env, st, caller, op, actor, now).value)
  {
    hide VaultOk, VaultTx, BeginTx, CreateTx, D.Replay, ActorIn;
    match op
    case CreateVault(e) => CreateKeeps(env, st, caller, e);
    case BeginPairing(o) => BeginKeeps(env, st, caller, o, now);
    case Reset(_) =>
    case _ => VaultTxKeeps(env, st.vaults[caller.owner], actor.value, op, now);
  }

  /** What an authorised request was authorised as. */
  lemma GrantFacts(env: Env, st: State, caller: Caller, op: Op, now: Time)
    requires StateOk(env, st)
    requires Authorise(env, st, caller, op, now).Ok?
    ensures !op.CreateVault? ==> caller.owner in st.vaults
    ensures op.CreateVault? ==> D.Replay(env.crypto, [op.entry]).Ok?
    ensures !op.CreateVault? && !op.BeginPairing? ==>
              var actor := Authorise(env, st, caller, op, now).value.actor;
              actor.Some? && ActorIn(st.vaults[caller.owner], actor.value)
  {
    hide D.Replay, ActorFor, LogOk, NoneLockedOut, PackagesOk, HistoryOk, CheckpointsOk, RolesOk;
    if !op.CreateVault? && !op.BeginPairing? {
      ActorForIn(st.vaults[caller.owner], caller, now);
    }
  }

  lemma SubmitKeeps(env: Env, st: State, caller: Caller, q: SignedRequest, op: Op, clock: Clock)
    requires env.Valid() && StateOk(env, st)
    ensures StateOk(env, Submit(env, st, caller, q, op, clock).state)
  {
    hide VaultOk, Perform, Authorise, VerifyRequest, ActorIn, D.Replay;
    var granted := Authorise(env, st, caller, op, clock.lookup);
    if granted.Ok? {
      GrantFacts(env, st, caller, op, clock.lookup);
      var verified := VerifyRequest(env, st.nonces, granted.value.scope, granted.value.key, caller, q, clock);
      if verified.Ok? {
        var start := st.(nonces := verified.value);
        if Perform(env, start, caller, op, granted.value.actor, clock.act).Ok? {
          PerformKeeps(env, start, caller, op, granted.value.actor, clock.act);
        }
      }
    }
  }

  lemma StepKeeps(env: Env, st: State, ev: Event)
    requires env.Valid() && StateOk(env, st)
    ensures StateOk(env, Step(env, st, ev).state)
  {
    hide VaultOk, Submit, PurgeExpired;
    match ev
    case Request(caller, request, op, clock) => SubmitKeeps(env, st, caller, request, op, clock);
    case KeepNonce(_) =>
    case Maintain(now) => PurgeKeeps(env, st, now);
    case AdminReset(_) =>
  }

  /** In every reachable state every vault is sound: its tables are a replay of its log, tokens have one
      live role, nobody is locked out, the kept headers verify and the kept bodies match them. */
  lemma {:induction false} EveryReachableStateOk(env: Env, events: seq<Event>)
    requires env.Valid()
    ensures StateOk(env, Run(env, events))
  {
    hide Step, VaultOk;
    if events != [] {
      EveryReachableStateOk(env, events[..|events| - 1]);
      StepKeeps(env, Run(env, events[..|events| - 1]), events[|events| - 1]);
    }
  }
}
