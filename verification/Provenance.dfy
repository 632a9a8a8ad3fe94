/** How a device got into a vault: every member was created with it, or went through offer, answer,
    confirmation and approval, in that order and with one set of keys. */
module Provenance {
  import opened Basics
  import opened Records
  import opened Tables
  import opened Operations
  import opened VaultInvariant
  import opened VaultSteps
  import opened ServiceRuns
  import D = DeviceLog

  /** After every event from i on, the owner has a vault, and it is the one the owner has in the end. */
  ghost predicate StandsSince(env: Env, events: seq<Event>, owner: Text, i: nat) {
    && owner in Run(env, events).vaults
    && forall n | i < n <= |events| ::
         owner in Run(env, events[..n]).vaults && Run(env, events[..n]).vaults[owner].id ==
             Run(env, events).vaults[owner].id
  }

  ghost predicate CreatedAt(env: Env, events: seq<Event>, i: nat, owner: Text, d: Device) {
    && StandsSince(env, events, owner, i)
    && Accepted(env, events, i) && events[i].caller.owner == owner && events[i].caller.token == d.token
    && events[i].op.CreateVault?
    && events[i].op.entry.subject == d.deviceId && events[i].op.entry.signingKey == d.signingKey
  }

  ghost predicate OfferedAt(env: Env, events: seq<Event>, i: nat, owner: Text, p: Pairing) {
    && Accepted(env, events, i) && events[i].caller.owner == owner && events[i].caller.token == p.token
    && events[i].op == BeginPairing(Offer(p.deviceId, p.signingKey, p.packageKey, p.offer))
  }

  /** The caller's token is that of device `id` of the vault, which is approved and activated for the epoch. */
  predicate Member(v: Vault, caller: Caller, id: Text) {
    id in v.devices && v.devices[id].token == caller.token && v.devices[id].state == Approved
    && v.devices[id].activatedEpoch == v.epoch
  }

  /** Event i was sent by an activated member of the owner's vault as it was then. */
  ghost predicate SentByMember(env: Env, events: seq<Event>, i: nat, owner: Text, id: Text) {
    && i < |events| && events[i].Request?
    && owner in Run(env, events[..i]).vaults && Member(Run(env, events[..i]).vaults[owner], events[i].caller, id)
  }

  ghost predicate AnsweredAt(env: Env, events: seq<Event>, i: nat, owner: Text, p: Pairing) {
    && Accepted(env, events, i) && events[i].caller.owner == owner
    && (exists id :: SentByMember(env, events, i, owner, id))
    && events[i].op == AnswerPairing(p.deviceId, p.answer)
  }

  ghost predicate ConfirmedAt(env: Env, events: seq<Event>, i: nat, owner: Text, p: Pairing) {
    && Accepted(env, events, i) && events[i].caller.owner == owner && events[i].caller.token == p.token
    && events[i].op == ConfirmPairing(p.confirm)
  }

  ghost predicate ApprovedAt(env: Env, events: seq<Event>, i: nat, owner: Text, p: Pairing) {
    && Accepted(env, events, i) && events[i].caller.owner == owner
    && events[i].op.Approve? && SentByMember(env, events, i, owner, events[i].op.entry.signer)
    && events[i].op.entry.subject == p.deviceId
    && events[i].op.entry.signingKey == p.signingKey && events[i].op.entry.packageKey == p.packageKey
  }

  /** The steps a pairing of the present vault has been through, at these positions of the run. */
  ghost predicate WentThrough(env: Env, events: seq<Event>, owner: Text, p: Pairing, i: nat, j: nat, k: nat) {
    && StandsSince(env, events, owner, i)
    && OfferedAt(env, events, i, owner, p)
    && (p.state != Offered ==> i < j && AnsweredAt(env, events, j, owner, p))
    && (p.state == Confirmed ==> j < k && ConfirmedAt(env, events, k, owner, p))
  }

  ghost predicate PairingTraced(env: Env, events: seq<Event>, owner: Text, p: Pairing) {
    exists i: nat, j: nat, k: nat :: WentThrough(env, events, owner, p, i, j, k)
  }

  /** A confirmed pairing, fully traced, that an approval turned into this device. */
  ghost predicate JoinedThrough(env: Env, events: seq<Event>, owner: Text, d: Device, p: Pairing, i: nat, j: nat,
                                k: nat, m: nat) {
    && p.state == Confirmed && WentThrough(env, events, owner, p, i, j, k)
    && k < m && ApprovedAt(env, events, m, owner, p)
    && p.deviceId == d.deviceId && p.token == d.token && p.signingKey == d.signingKey
  }

  ghost predicate DeviceTraced(env: Env, events: seq<Event>, owner: Text, d: Device) {
    || (exists i: nat :: CreatedAt(env, events, i, owner, d))
    || (exists p, i: nat, j: nat, k: nat, m: nat :: JoinedThrough(env, events, owner, d, p, i, j, k, m))
  }

  // ---------------------------------------------------------------------------------------------
  // Where a row can come from in one step

  predicate SameJoin(a: Device, b: Device) {
    a.deviceId == b.deviceId && a.token == b.token && a.signingKey == b.signingKey
  }

  /** A pairing after a step was there before, or the step is the one that made it so. */
  ghost predicate PairingSource(before: Vault, caller: Caller, op: Op, p: Pairing) {
    || (p.deviceId in before.pairings && before.pairings[p.deviceId] == p)
    || (p.deviceId in before.pairings && before.pairings[p.deviceId].state == Offered
        && op == AnswerPairing(p.deviceId, p.answer)
        && p == before.pairings[p.deviceId].(answer := p.answer, state := Answered))
    || (p.deviceId in before.pairings && before.pairings[p.deviceId].state == Answered
        && op == ConfirmPairing(p.confirm) && caller.token == p.token
        && p == before.pairings[p.deviceId].(confirm := p.confirm, state := Confirmed))
  }

  ghost predicate DeviceSource(before: Vault, op: Op, d: Device) {
    || (d.deviceId in before.devices && SameJoin(before.devices[d.deviceId], d))
    || (op.Approve? && op.entry.subject == d.deviceId && d.deviceId in before.pairings
        && var p := before.pairings[d.deviceId];
           && p.state == Confirmed && p.deviceId == d.deviceId && p.token == d.token
           && p.signingKey == d.signingKey == op.entry.signingKey && p.packageKey == op.entry.packageKey)
  }

  /** An actor is a device or a pairing of the caller's own token. */
  ghost predicate ActorOf(v: Vault, caller: Caller, actor: Actor) {
    ActorIn(v, actor) && caller.token == (if actor.ByPairing? then actor.pairing.token else actor.device.token)
  }

  lemma PairingSources(env: Env, v: Vault, caller: Caller, actor: Actor, op: Op, now: Time, id: Text)
    requires RolesOk(v.devices, v.pairings) && ActorOf(v, caller, actor)
    requires !op.CreateVault? && !op.BeginPairing? && !op.Reset?
    requires VaultTx(env, v, actor, op, now).Ok?
    requires id in VaultTx(env, v, actor, op, now).value.pairings
    ensures PairingSource(v, caller, op, VaultTx(env, v, actor, op, now).value.pairings[id])
  {
    hide RolesOk, ActorOf, PairingSource, AnswerTx, ConfirmTx, CancelTx, ApproveTx, ActivateTx, RekeyTx, UpgradeKeyTx,
         UploadTx, PutCheckpointTx;
    PairingIds(v.devices, v.pairings);
    var p := VaultTx(env, v, actor, op, now).value.pairings[id];
    if id in v.pairings && v.pairings[id] == p {
      OldSource(v, caller, op, p);
    } else {
      match op
      case AnswerPairing(d, message) => AnswerSource(v, caller, actor, d, message, now, id);
      case ConfirmPairing(message) => ConfirmSource(v, caller, actor, message, id);
      case CancelPairing(d) => CancelSource(v, caller, actor, d, op, id);
      case _ =>
    }
  }

  lemma OldSource(v: Vault, caller: Caller, op: Op, p: Pairing)
    requires p.deviceId in v.pairings && v.pairings[p.deviceId] == p
    ensures PairingSource(v, caller, op, p)
  {
  }

  lemma AnswerSource(v: Vault, caller: Caller, actor: Actor, d: Text, message: seq<Byte>, now: Time, id: Text)
    requires forall i | i in v.pairings :: v.pairings[i].deviceId == i
    requires AnswerTx(v, actor, d, message, now).Ok? && id in AnswerTx(v, actor, d, message, now).value.pairings
    ensures PairingSource(v, caller, AnswerPairing(d, message), AnswerTx(v, actor, d, message, now).value.pairings[id])
  {
  }

  lemma ConfirmSource(v: Vault, caller: Caller, actor: Actor, message: seq<Byte>, id: Text)
    requires forall i | i in v.pairings :: v.pairings[i].deviceId == i
    requires ActorOf(v, caller, actor)
    requires ConfirmTx(v, actor, message).Ok? && id in ConfirmTx(v, actor, message).value.pairings
    ensures PairingSource(v, caller, ConfirmPairing(message), ConfirmTx(v, actor, message).value.pairings[id])
  {
  }

  lemma CancelSource(v: Vault, caller: Caller, actor: Actor, d: Text, op: Op, id: Text)
    requires forall i | i in v.pairings :: v.pairings[i].deviceId == i
    requires CancelTx(v, actor, d).Ok? && id in CancelTx(v, actor, d).value.pairings
    ensures PairingSource(v, caller, op, CancelTx(v, actor, d).value.pairings[id])
  {
  }

  lemma DeviceSources(env: Env, v: Vault, caller: Caller, actor: Actor, op: Op, now: Time, id: Text)
    requires RolesOk(v.devices, v.pairings) && ActorOf(v, caller, actor)
    requires !op.CreateVault? && !op.BeginPairing? && !op.Reset?
    requires VaultTx(env, v, actor, op, now).Ok?
    requires id in VaultTx(env, v, actor, op, now).value.devices
    ensures DeviceSource(v, op, VaultTx(env, v, actor, op, now).value.devices[id])
  {
    hide AnswerTx, ConfirmTx, CancelTx, UploadTx, PutCheckpointTx, ApproveTx, ActivateTx, RekeyTx, UpgradeKeyTx,
         RolesOk, ActorIn;
    DeviceIds(v.devices, v.pairings);
    PairingIds(v.devices, v.pairings);
    match op
    case Approve(e, k) => ApproveDevices(env, v, actor, e, k, now);
    case Activate(digest) => ActivateDevices(env, v, actor, digest);
    case Remove(e, packages) => RekeyDevices(env, v, actor, D.REMOVE, e, packages);
    case Rotate(e, packages) => RekeyDevices(env, v, actor, D.ROTATE, e, packages);
    case UpgradeKey(e) => UpgradeDevices(env, v, actor, e);
    case _ =>
  }

  lemma ApproveDevices(env: Env, v: Vault, actor: Actor, e: Entry, k: KeyPackage, now: Time)
    requires ActorIn(v, actor)
    requires ApproveTx(env, v, actor, e, k, now).Ok?
    ensures e.subject in v.pairings && v.pairings[e.subject].state == Confirmed
    ensures v.pairings[e.subject].signingKey == e.signingKey && v.pairings[e.subject].packageKey == e.packageKey
    ensures ApproveTx(env, v, actor, e, k, now).value.devices ==
            v.devices[e.subject := Device(e.subject, v.pairings[e.subject].token, e.signingKey, e.packageKey, Approved,
                                          e.index, 0)]
  {
    hide ApproveTx, Grow, PackageSigned;
    var d := ApproveFacts(env, v, actor, e, k, now);
  }

  lemma RekeyDevices(env: Env, v: Vault, actor: Actor, kind: Text, e: Entry, packages: seq<KeyPackage>)
    requires RolesOk(v.devices, v.pairings) && ActorIn(v, actor)
    requires RekeyTx(env, v, actor, kind, e, packages).Ok?
    ensures
      var devices := RekeyTx(env, v, actor, kind, e, packages).value.devices;
      forall i | i in devices :: i in v.devices && SameJoin(v.devices[i], devices[i])
  {
    hide RekeyTx, Grow, Distribute, RolesOk, ActorIn;
    RekeyFacts(env, v, actor, kind, e, packages);
  }

  lemma UpgradeDevices(env: Env, v: Vault, actor: Actor, e: Entry)
    requires RolesOk(v.devices, v.pairings) && ActorIn(v, actor)
    requires UpgradeKeyTx(env, v, actor, e).Ok?
    ensures
      var devices := UpgradeKeyTx(env, v, actor, e).value.devices;
      forall i | i in devices :: i in v.devices && SameJoin(v.devices[i], devices[i])
  {
    hide UpgradeKeyTx, Grow, RolesOk, ActorIn;
    var d := UpgradeFacts(env, v, actor, e);
  }

  lemma ActivateDevices(env: Env, v: Vault, actor: Actor, digest: Text)
    requires ActorIn(v, actor)
    requires ActivateTx(env, v, actor, digest).Ok?
    ensures
      var d := RequireApproved(actor).value;
      && d.deviceId in v.devices && v.devices[d.deviceId] == d
      && ActivateTx(env, v, actor, digest).value.devices == v.devices[d.deviceId := d.(activatedEpoch := v.epoch)]
  {
  }

  // ---------------------------------------------------------------------------------------------
  // Where a row can come from in one step of the service

  ghost predicate AcceptedFrom(env: Env, st: State, ev: Event, owner: Text) {
    ev.Request? && Step(env, st, ev).answer.Ok? && ev.caller.owner == owner
  }

  ghost predicate PairingFrom(env: Env, st: State, ev: Event, owner: Text, p: Pairing) {
    || (owner in st.vaults && p.deviceId in st.vaults[owner].pairings && st.vaults[owner].pairings[p.deviceId] == p)
    || (AcceptedFrom(env, st, ev, owner) && ev.caller.token == p.token && p.state == Offered
        && ev.op == BeginPairing(Offer(p.deviceId, p.signingKey, p.packageKey, p.offer)))
    || (AcceptedFrom(env, st, ev, owner) && owner in st.vaults && PairingSource(st.vaults[owner], ev.caller, ev.op, p))
  }

  ghost predicate DeviceFrom(env: Env, st: State, ev: Event, owner: Text, d: Device) {
    || (owner in st.vaults && d.deviceId in st.vaults[owner].devices
        && SameJoin(st.vaults[owner].devices[d.deviceId], d))
    || (AcceptedFrom(env, st, ev, owner) && ev.op.CreateVault? && ev.caller.token == d.token
        && ev.op.entry.subject == d.deviceId && ev.op.entry.signingKey == d.signingKey)
    || (AcceptedFrom(env, st, ev, owner) && owner in st.vaults && DeviceSource(st.vaults[owner], ev.op, d))
  }

  /** What an accepted request was performed on, and as whom. */
  lemma AcceptedFacts(env: Env, st: State, ev: Event) returns (start: State, actor: Option<Actor>)
    requires StateOk(env, st)
    requires ev.Request? && Step(env, st, ev).answer.Ok?
    ensures start.vaults == st.vaults
    ensures !ev.op.CreateVault? ==> ev.caller.owner in st.vaults
    ensures !ev.op.CreateVault? && !ev.op.BeginPairing? ==>
            actor.Some? && ActorOf(st.vaults[ev.caller.owner], ev.caller, actor.value)
    ensures Perform(env, start, ev.caller, ev.op, actor, ev.clock.act) == Ok(Step(env, st, ev).state)
  {
    hide Perform, VaultOk, ActorFor, D.Replay;
    var grant := Authorise(env, st, ev.caller, ev.op, ev.clock.lookup).value;
    start := st.(nonces := VerifyRequest(env, st.nonces, grant.scope, grant.key, ev.caller, ev.request,
                                         ev.clock).value);
    actor := grant.actor;
    if !ev.op.CreateVault? && !ev.op.BeginPairing? {
      OwnActor(env, st.vaults[ev.caller.owner], ev.caller, ev.clock.lookup);
    }
  }

  lemma OwnActor(env: Env, v: Vault, caller: Caller, now: Time)
    requires VaultOk(env, v)
    requires ActorFor(v, caller, now).Ok?
    ensures ActorOf(v, caller, ActorFor(v, caller, now).value)
  {
    hide LogOk, NoneLockedOut, PackagesOk, HistoryOk, CheckpointsOk;
    ActorForIn(v, caller, now);
  }

  lemma VaultRoles(env: Env, v: Vault)
    requires VaultOk(env, v)
    ensures RolesOk(v.devices, v.pairings)
  {
    hide LogOk, NoneLockedOut, PackagesOk, HistoryOk, CheckpointsOk, RolesOk;
  }

  /** After an offer, a pairing of any vault was there before or is the offer itself. */
  lemma BeginSources(env: Env, st: State, caller: Caller, o: Offer, now: Time, owner: Text, id: Text)
    requires StateOk(env, st) && caller.owner in st.vaults
    requires BeginTx(st, caller, o, now).Ok?
    requires owner in BeginTx(st, caller, o, now).value.vaults
    ensures owner in st.vaults
    ensures BeginTx(st, caller, o, now).value.vaults[owner].devices == st.vaults[owner].devices
    ensures
      var after := BeginTx(st, caller, o, now).value.vaults[owner].pairings;
      id in after ==>
        || (id in st.vaults[owner].pairings && st.vaults[owner].pairings[id] == after[id])
        || (owner == caller.owner && after[id].deviceId == o.deviceId && after[id].token == caller.token
            && after[id].state == Offered
            && o == Offer(after[id].deviceId, after[id].signingKey, after[id].packageKey, after[id].offer))
  {
    hide VaultOk, DeviceByToken, WithoutPairingOf;
    WithoutSubset(st.vaults[caller.owner], caller.token);
  }

  lemma WithoutSubset(v: Vault, token: Text)
    ensures WithoutPairingOf(v, token).devices == v.devices
    ensures forall i | i in WithoutPairingOf(v, token).pairings ::
              i in v.pairings && WithoutPairingOf(v, token).pairings[i] == v.pairings[i]
  {
  }

  lemma StepPairings(env: Env, st: State, ev: Event, owner: Text, id: Text)
    requires StateOk(env, st)
    requires owner in Step(env, st, ev).state.vaults && id in Step(env, st, ev).state.vaults[owner].pairings
    ensures PairingFrom(env, st, ev, owner, Step(env, st, ev).state.vaults[owner].pairings[id])
  {
    hide Step, VaultOk, PairingSource, DeviceSource;
    if owner in st.vaults {
      VaultRoles(env, st.vaults[owner]);
      PairingIds(st.vaults[owner].devices, st.vaults[owner].pairings);
    }
    if ev.Request? {
      if Step(env, st, ev).answer.Ok? {
        RequestPairings(env, st, ev, owner, id);
      } else {
        RefusedUnchanged(env, st, ev);
      }
    } else {
      QuietRows(env, st, ev, owner);
    }
  }

  /** Second writes, maintenance and resets make no pairing and change no device. */
  lemma QuietRows(env: Env, st: State, ev: Event, owner: Text)
    requires !ev.Request?
    requires owner in Step(env, st, ev).state.vaults
    ensures owner in st.vaults
    ensures Step(env, st, ev).state.vaults[owner].devices == st.vaults[owner].devices
    ensures
      var after := Step(env, st, ev).state.vaults[owner].pairings;
      forall i | i in after :: i in st.vaults[owner].pairings && after[i] == st.vaults[owner].pairings[i]
  {
  }

  lemma RefusedUnchanged(env: Env, st: State, ev: Event)
    requires ev.Request? && Step(env, st, ev).answer.Err?
    ensures Step(env, st, ev).state == st
  {
    hide Authorise, VerifyRequest, Perform;
  }

  /** An operation on a vault replaces that vault and nothing else. */
  lemma PerformVault(env: Env, st: State, caller: Caller, op: Op, actor: Actor, now: Time)
    requires caller.owner in st.vaults
    requires !op.CreateVault? && !op.BeginPairing? && !op.Reset?
    requires Perform(env, st, caller, op, Some(actor), now).Ok?
    ensures VaultTx(env, st.vaults[caller.owner], actor, op, now).Ok?
    ensures Perform(env, st, caller, op, Some(actor), now).value.vaults ==
            st.vaults[caller.owner := VaultTx(env, st.vaults[caller.owner], actor, op, now).value]
  {
    hide VaultTx;
  }

  lemma RequestPairings(env: Env, st: State, ev: Event, owner: Text, id: Text)
    requires StateOk(env, st)
    requires ev.Request? && Step(env, st, ev).answer.Ok?
    requires owner in Step(env, st, ev).state.vaults && id in Step(env, st, ev).state.vaults[owner].pairings
    requires owner in st.vaults ==> forall i | i in st.vaults[owner].pairings ::
             st.vaults[owner].pairings[i].deviceId == i
    ensures PairingFrom(env, st, ev, owner, Step(env, st, ev).state.vaults[owner].pairings[id])
  {
    hide Step, VaultOk, VaultTx, BeginTx, PairingSource;
    var start, actor := AcceptedFacts(env, st, ev);
    match ev.op
    case CreateVault(_) =>
    case BeginPairing(o) => BeginSources(env, start, ev.caller, o, ev.clock.act, owner, id);
    case Reset(_) =>
    case _ =>
      PerformVault(env, start, ev.caller, ev.op, actor.value, ev.clock.act);
      if owner == ev.caller.owner {
        VaultRoles(env, st.vaults[owner]);
        PairingSources(env, st.vaults[owner], ev.caller, actor.value, ev.op, ev.clock.act, id);
      }
  }

  lemma StepDevices(env: Env, st: State, ev: Event, owner: Text, id: Text)
    requires StateOk(env, st)
    requires owner in Step(env, st, ev).state.vaults && id in Step(env, st, ev).state.vaults[owner].devices
    ensures DeviceFrom(env, st, ev, owner, Step(env, st, ev).state.vaults[owner].devices[id])
  {
    hide Step, VaultOk, PairingSource, DeviceSource;
    if owner in st.vaults {
      VaultRoles(env, st.vaults[owner]);
      DeviceIds(st.vaults[owner].devices, st.vaults[owner].pairings);
    }
    if ev.Request? {
      if Step(env, st, ev).answer.Ok? {
        RequestDevices(env, st, ev, owner, id);
      } else {
        RefusedUnchanged(env, st, ev);
      }
    } else {
      QuietRows(env, st, ev, owner);
    }
  }

  lemma RequestDevices(env: Env, st: State, ev: Event, owner: Text, id: Text)
    requires StateOk(env, st)
    requires ev.Request? && Step(env, st, ev).answer.Ok?
    requires owner in Step(env, st, ev).state.vaults && id in Step(env, st, ev).state.vaults[owner].devices
    requires owner in st.vaults ==> forall i | i in st.vaults[owner].devices ::
             st.vaults[owner].devices[i].deviceId == i
    ensures DeviceFrom(env, st, ev, owner, Step(env, st, ev).state.vaults[owner].devices[id])
  {
    hide Step, VaultOk, VaultTx, BeginTx, DeviceSource;
    var start, actor := AcceptedFacts(env, st, ev);
    match ev.op
    case CreateVault(_) =>
    case BeginPairing(o) => BeginSources(env, start, ev.caller, o, ev.clock.act, owner, id);
    case Reset(_) =>
    case _ =>
      PerformVault(env, start, ev.caller, ev.op, actor.value, ev.clock.act);
      if owner == ev.caller.owner {
        VaultRoles(env, st.vaults[owner]);
        DeviceSources(env, st.vaults[owner], ev.caller, actor.value, ev.op, ev.clock.act, id);
      }
  }

  /** A pairing is answered, and a device approved, by an activated member; it signs the approval in its own name. */
  lemma MemberActs(env: Env, v: Vault, caller: Caller, actor: Actor, op: Op, now: Time)
    requires ActorOf(v, caller, actor) && (op.AnswerPairing? || op.Approve?)
    requires VaultTx(env, v, actor, op, now).Ok?
    ensures Member(v, caller, ActorId(actor))
    ensures op.Approve? ==> ActorId(actor) == op.entry.signer
  {
    hide Grow, PackageSigned;
  }

  lemma AcceptedMember(env: Env, st: State, ev: Event) returns (id: Text)
    requires StateOk(env, st)
    requires ev.Request? && Step(env, st, ev).answer.Ok? && (ev.op.AnswerPairing? || ev.op.Approve?)
    ensures ev.caller.owner in st.vaults && Member(st.vaults[ev.caller.owner], ev.caller, id)
    ensures ev.op.Approve? ==> id == ev.op.entry.signer
  {
    hide Step, StateOk, VaultTx, Member, ActorOf;
    var start, actor := AcceptedFacts(env, st, ev);
    id := ActorId(actor.value);
    PerformVault(env, start, ev.caller, ev.op, actor.value, ev.clock.act);
    MemberActs(env, st.vaults[ev.caller.owner], ev.caller, actor.value, ev.op, ev.clock.act);
  }

  // ---------------------------------------------------------------------------------------------
  // Traces over a run

  ghost predicate Traced(env: Env, events: seq<Event>) {
    forall owner | owner in Run(env, events).vaults ::
      && (forall i | i in Run(env, events).vaults[owner].pairings ::
            PairingTraced(env, events, owner, Run(env, events).vaults[owner].pairings[i]))
      && (forall i | i in Run(env, events).vaults[owner].devices ::
            DeviceTraced(env, events, owner, Run(env, events).vaults[owner].devices[i]))
  }

  lemma AcceptedStays(env: Env, events: seq<Event>, ev: Event, i: nat)
    requires Accepted(env, events, i)
    ensures i < |events| && events[i].Request?
    ensures Accepted(env, events + [ev], i) && (events + [ev])[i] == events[i]
  {
    hide Step, Run;
    assert (events + [ev])[..i] == events[..i];
  }

  lemma MemberStays(env: Env, events: seq<Event>, ev: Event, i: nat, owner: Text, id: Text)
    requires SentByMember(env, events, i, owner, id)
    ensures SentByMember(env, events + [ev], i, owner, id)
  {
    hide Run, Member;
    assert (events + [ev])[..i] == events[..i];
  }

  lemma LastByMember(env: Env, events: seq<Event>, ev: Event, owner: Text) returns (id: Text)
    requires env.Valid() && AcceptedFrom(env, Run(env, events), ev, owner) && (ev.op.AnswerPairing? || ev.op.Approve?)
    ensures SentByMember(env, events + [ev], |events|, owner, id)
    ensures ev.op.Approve? ==> id == ev.op.entry.signer
  {
    hide Run, Member, Step, StateOk;
    EveryReachableStateOk(env, events);
    id := AcceptedMember(env, Run(env, events), ev);
    assert (events + [ev])[..|events|] == events;
  }

  /** A step that leaves the owner a vault leaves it the same one. */
  lemma SameVault(env: Env, st: State, ev: Event, owner: Text)
    requires StateOk(env, st)
    requires owner in st.vaults && owner in Step(env, st, ev).state.vaults
    ensures Step(env, st, ev).state.vaults[owner].id == st.vaults[owner].id
  {
    hide Step, VaultOk;
    if !ev.Request? {
      QuietKeepsId(env, st, ev, owner);
    } else if Step(env, st, ev).answer.Ok? {
      RequestKeepsId(env, st, ev, owner);
    } else {
      RefusedUnchanged(env, st, ev);
    }
  }

  lemma QuietKeepsId(env: Env, st: State, ev: Event, owner: Text)
    requires !ev.Request? && owner in st.vaults && owner in Step(env, st, ev).state.vaults
    ensures Step(env, st, ev).state.vaults[owner].id == st.vaults[owner].id
  {
  }

  lemma RequestKeepsId(env: Env, st: State, ev: Event, owner: Text)
    requires StateOk(env, st) && ev.Request? && Step(env, st, ev).answer.Ok?
    requires owner in st.vaults && owner in Step(env, st, ev).state.vaults
    ensures Step(env, st, ev).state.vaults[owner].id == st.vaults[owner].id
  {
    hide Step, StateOk, VaultTx, BeginTx;
    var start, actor := AcceptedFacts(env, st, ev);
    match ev.op
    case CreateVault(_) => CreatorHadNone(env, st, ev);
    case BeginPairing(o) => OfferKeepsId(start, ev.caller, o, ev.clock.act, owner);
    case Reset(_) =>
    case _ => PerformVault(env, start, ev.caller, ev.op, actor.value, ev.clock.act);
  }

  lemma CreatorHadNone(env: Env, st: State, ev: Event)
    requires ev.Request? && ev.op.CreateVault? && Step(env, st, ev).answer.Ok?
    ensures ev.caller.owner !in st.vaults
  {
    hide VerifyRequest, Perform, D.Replay;
  }

  lemma OfferKeepsId(st: State, caller: Caller, o: Offer, now: Time, owner: Text)
    requires caller.owner in st.vaults && BeginTx(st, caller, o, now).Ok? && owner in st.vaults
    ensures owner in BeginTx(st, caller, o, now).value.vaults
    ensures BeginTx(st, caller, o, now).value.vaults[owner].id == st.vaults[owner].id
  {
    hide BeginTx, DeviceByToken;
    var purged, p := BeginFacts(st, caller, o, now);
    assert WithoutPairingOf(st.vaults[caller.owner], p.token).id == st.vaults[caller.owner].id;
  }

  lemma StandsOn(env: Env, events: seq<Event>, ev: Event, owner: Text, i: nat)
    requires env.Valid() && i < |events| && StandsSince(env, events, owner, i)
             && owner in Run(env, events + [ev]).vaults
    ensures StandsSince(env, events + [ev], owner, i)
  {
    hide Step, StateOk;
    var all := events + [ev];
    assert events[..|events|] == events && all[..|events|] == events && all[..|all|] == all;
    EveryReachableStateOk(env, events);
    RunSnoc(env, all, |events|);
    hide Run;
    SameVault(env, Run(env, events), ev, owner);
    forall n | i < n <= |all|
      ensures owner in Run(env, all[..n]).vaults
              && Run(env, all[..n]).vaults[owner].id == Run(env, all).vaults[owner].id
    {
      if n <= |events| {
        assert all[..n] == events[..n];
      }
    }
  }

  /** The last event of a run stands in the state it leaves. */
  lemma StandsAtEnd(env: Env, all: seq<Event>, owner: Text)
    requires all != [] && owner in Run(env, all).vaults
    ensures StandsSince(env, all, owner, |all| - 1)
  {
    hide Run;
    assert all[..|all|] == all;
  }

  lemma WentThroughStays(env: Env, events: seq<Event>, ev: Event, owner: Text, p: Pairing, i: nat, j: nat, k: nat)
    requires env.Valid() && owner in Run(env, events + [ev]).vaults
    requires WentThrough(env, events, owner, p, i, j, k)
    ensures WentThrough(env, events + [ev], owner, p, i, j, k)
    ensures i < |events| && (p.state != Offered ==> j < |events|) && (p.state == Confirmed ==> k < |events|)
  {
    hide Accepted, StandsSince, Run, SentByMember;
    AcceptedStays(env, events, ev, i);
    StandsOn(env, events, ev, owner, i);
    if p.state != Offered {
      AcceptedStays(env, events, ev, j);
      var id :| SentByMember(env, events, j, owner, id);
      MemberStays(env, events, ev, j, owner, id);
    }
    if p.state == Confirmed {
      AcceptedStays(env, events, ev, k);
    }
  }

  lemma DeviceTracedStays(env: Env, events: seq<Event>, ev: Event, owner: Text, d: Device, e: Device)
    requires env.Valid() && owner in Run(env, events + [ev]).vaults
    requires DeviceTraced(env, events, owner, d)
    requires SameJoin(d, e)
    ensures DeviceTraced(env, events + [ev], owner, e)
  {
    hide Accepted, WentThrough, StandsSince, Run, SentByMember;
    var all := events + [ev];
    if i: nat :| CreatedAt(env, events, i, owner, d) {
      AcceptedStays(env, events, ev, i);
      StandsOn(env, events, ev, owner, i);
      assert CreatedAt(env, all, i, owner, e);
    } else {
      var p, i: nat, j: nat, k: nat, m: nat :| JoinedThrough(env, events, owner, d, p, i, j, k, m);
      AcceptedStays(env, events, ev, m);
      MemberStays(env, events, ev, m, owner, events[m].op.entry.signer);
      WentThroughStays(env, events, ev, owner, p, i, j, k);
      assert JoinedThrough(env, all, owner, e, p, i, j, k, m);
    }
  }

  /** The last event of a run, if it was accepted. */
  lemma LastAccepted(env: Env, events: seq<Event>, ev: Event, owner: Text)
    requires AcceptedFrom(env, Run(env, events), ev, owner)
    ensures Accepted(env, events + [ev], |events|) && (events + [ev])[|events|] == ev
    ensures ev.Request? && ev.caller.owner == owner
  {
    hide Step, Run;
    assert (events + [ev])[..|events|] == events;
  }

  lemma PairingStillTraced(env: Env, events: seq<Event>, ev: Event, owner: Text, p: Pairing)
    requires env.Valid() && owner in Run(env, events + [ev]).vaults
    requires Traced(env, events)
    requires PairingFrom(env, Run(env, events), ev, owner, p)
    ensures PairingTraced(env, events + [ev], owner, p)
  {
    hide Run, AcceptedFrom, Accepted, StandsSince, SentByMember;
    var st, n, all := Run(env, events), |events|, events + [ev];
    StandsAtEnd(env, all, owner);
    if owner in st.vaults && p.deviceId in st.vaults[owner].pairings {
      var q := st.vaults[owner].pairings[p.deviceId];
      var i: nat, j: nat, k: nat :| WentThrough(env, events, owner, q, i, j, k);
      WentThroughStays(env, events, ev, owner, q, i, j, k);
      if q == p {
        assert WentThrough(env, all, owner, p, i, j, k);
      } else {
        LastAccepted(env, events, ev, owner);
        if ev.op.AnswerPairing? {
          var id := LastByMember(env, events, ev, owner);
        }
        WentFurther(env, all, owner, q, p, ev, n, i, j, k);
      }
    } else {
      LastAccepted(env, events, ev, owner);
      assert WentThrough(env, all, owner, p, n, n, n);
    }
  }

  /** The last event offered the pairing afresh, answered it, or confirmed it. */
  lemma WentFurther(env: Env, all: seq<Event>, owner: Text, q: Pairing, p: Pairing, ev: Event, n: nat, i: nat, j: nat,
                    k: nat)
    requires WentThrough(env, all, owner, q, i, j, k) && StandsSince(env, all, owner, n)
    requires Accepted(env, all, n) && all[n] == ev && n == |all| - 1 && ev.caller.owner == owner
    requires i < n && (q.state != Offered ==> j < n)
    requires ev.op.AnswerPairing? ==> exists id :: SentByMember(env, all, n, owner, id)
    requires
      || (ev.caller.token == p.token && p.state == Offered
          && ev.op == BeginPairing(Offer(p.deviceId, p.signingKey, p.packageKey, p.offer)))
      || (q.state == Offered && ev.op == AnswerPairing(p.deviceId, p.answer)
          && p == q.(answer := p.answer, state := Answered))
      || (q.state == Answered && ev.op == ConfirmPairing(p.confirm) && ev.caller.token == p.token
          && p == q.(confirm := p.confirm, state := Confirmed))
    ensures PairingTraced(env, all, owner, p)
  {
    hide Accepted, StandsSince, SentByMember;
    if p.state == Offered {
      assert WentThrough(env, all, owner, p, n, n, n);
    } else if q.state == Offered {
      assert WentThrough(env, all, owner, p, i, n, n);
    } else {
      assert WentThrough(env, all, owner, p, i, j, n);
    }
  }

  lemma DeviceStillTraced(env: Env, events: seq<Event>, ev: Event, owner: Text, d: Device)
    requires env.Valid() && owner in Run(env, events + [ev]).vaults
    requires Traced(env, events)
    requires DeviceFrom(env, Run(env, events), ev, owner, d)
    ensures DeviceTraced(env, events + [ev], owner, d)
  {
    hide Run, AcceptedFrom, Accepted, StandsSince, SentByMember;
    var st, n, all := Run(env, events), |events|, events + [ev];
    StandsAtEnd(env, all, owner);
    if owner in st.vaults && d.deviceId in st.vaults[owner].devices
      && SameJoin(st.vaults[owner].devices[d.deviceId], d) {
      DeviceTracedStays(env, events, ev, owner, st.vaults[owner].devices[d.deviceId], d);
    } else {
      LastAccepted(env, events, ev, owner);
      if ev.op.CreateVault? {
        assert CreatedAt(env, all, n, owner, d);
      } else {
        var p := st.vaults[owner].pairings[d.deviceId];
        var i: nat, j: nat, k: nat :| WentThrough(env, events, owner, p, i, j, k);
        WentThroughStays(env, events, ev, owner, p, i, j, k);
        var id := LastByMember(env, events, ev, owner);
        assert JoinedThrough(env, all, owner, d, p, i, j, k, n);
      }
    }
  }

  /** In every reachable state every pairing and every device has its history in the run. */
  lemma {:induction false} EveryRowIsTraced(env: Env, events: seq<Event>)
    requires env.Valid()
    ensures Traced(env, events)
  {
    if events != [] {
      var init, ev := events[..|events| - 1], events[|events| - 1];
      assert events == init + [ev];
      EveryRowIsTraced(env, init);
      EveryReachableStateOk(env, init);
      hide Step, StateOk, PairingTraced, DeviceTraced, PairingFrom, DeviceFrom;
      var st := Run(env, events);
      forall owner | owner in st.vaults
        ensures forall i | i in st.vaults[owner].pairings ::
                PairingTraced(env, events, owner, st.vaults[owner].pairings[i])
        ensures forall i | i in st.vaults[owner].devices ::
                DeviceTraced(env, events, owner, st.vaults[owner].devices[i])
      {
        forall i | i in st.vaults[owner].pairings
          ensures PairingTraced(env, events, owner, st.vaults[owner].pairings[i])
        {
          StepPairings(env, Run(env, init), ev, owner, i);
          PairingStillTraced(env, init, ev, owner, st.vaults[owner].pairings[i]);
        }
        forall i | i in st.vaults[owner].devices
          ensures DeviceTraced(env, events, owner, st.vaults[owner].devices[i])
        {
          StepDevices(env, Run(env, init), ev, owner, i);
          DeviceStillTraced(env, init, ev, owner, st.vaults[owner].devices[i]);
        }
      }
    }
  }
}
