/** Over every run, what a device has stored as its checkpoint never goes back. */
module CheckpointHistory {
  import opened Basics
  import opened Records
  import opened Tables
  import opened Operations
  import opened VaultInvariant
  import opened VaultSteps
  import opened ServiceRuns
  import opened DeviceRequests
  import Provenance
  import D = DeviceLog

  predicate NotBack(earlier: Checkpoint, later: Checkpoint) {
    earlier == later || Forward(earlier, later)
  }

  /** The device was a member once and is not any more. */
  predicate Gone(v: Vault, d: Text) {
    d in v.devices && v.devices[d].state == Revoked
  }

  /** The device's checkpoint is still there or has moved forward, or the device is gone; and gone it stays. */
  ghost predicate Onward(v: Vault, w: Vault, d: Text) {
    && (d in v.checkpoints ==> (d in w.checkpoints && NotBack(v.checkpoints[d], w.checkpoints[d])) || Gone(w, d))
    && (Gone(v, d) ==> Gone(w, d))
  }

  /** Only members have a checkpoint stored. */
  lemma StoredByMember(env: Env, v: Vault, d: Text)
    requires VaultOk(env, v) && d in v.checkpoints
    ensures d in v.devices && v.devices[d].state == Approved
  {
    hide LogOk, RolesOk, NoneLockedOut, PackagesOk, HistoryOk;
    assert CheckpointOk(env.crypto, v.id, v.devices, d, v.checkpoints[d]);
  }

  // ---------------------------------------------------------------------------------------------
  // One operation

  lemma ApproveOnward(env: Env, v: Vault, actor: Actor, e: Entry, k: KeyPackage, now: Time, d: Text)
    requires VaultOk(env, v) && ActorIn(v, actor) && ApproveTx(env, v, actor, e, k, now).Ok?
    ensures Onward(v, ApproveTx(env, v, actor, e, k, now).value, d)
  {
    hide ApproveTx, VaultOk;
    Provenance.VaultRoles(env, v);
    var row := ApproveFacts(env, v, actor, e, k, now);
  }

  lemma RekeyOnward(env: Env, v: Vault, actor: Actor, kind: Text, e: Entry, packages: seq<KeyPackage>, d: Text)
    requires VaultOk(env, v) && ActorIn(v, actor) && RekeyTx(env, v, actor, kind, e, packages).Ok?
    ensures Onward(v, RekeyTx(env, v, actor, kind, e, packages).value, d)
  {
    hide RekeyTx, VaultOk, Grow, Distribute;
    Provenance.VaultRoles(env, v);
    RekeyFacts(env, v, actor, kind, e, packages);
    if d in v.checkpoints {
      StoredByMember(env, v, d);
    }
  }

  lemma ActivateOnward(env: Env, v: Vault, actor: Actor, digest: Text, d: Text)
    requires ActorIn(v, actor) && ActivateTx(env, v, actor, digest).Ok?
    ensures Onward(v, ActivateTx(env, v, actor, digest).value, d)
  {
    hide ActivateTx;
    var row := ActivateFacts(env, v, actor, digest);
  }

  lemma UpgradeOnward(env: Env, v: Vault, actor: Actor, e: Entry, d: Text)
    requires VaultOk(env, v) && ActorIn(v, actor) && UpgradeKeyTx(env, v, actor, e).Ok?
    ensures Onward(v, UpgradeKeyTx(env, v, actor, e).value, d)
  {
    hide UpgradeKeyTx, VaultOk, Grow;
    Provenance.VaultRoles(env, v);
    var row := UpgradeFacts(env, v, actor, e);
  }

  lemma UploadOnward(env: Env, v: Vault, actor: Actor, h: Header, body: seq<Byte>, d: Text)
    requires UploadTx(env, v, actor, h, body).Ok?
    ensures Onward(v, UploadTx(env, v, actor, h, body).value, d)
  {
    hide D.Replay;
  }

  lemma VaultOnward(env: Env, v: Vault, actor: Actor, op: Op, now: Time, d: Text)
    requires VaultOk(env, v) && ActorIn(v, actor) && !op.CreateVault? && !op.BeginPairing? && !op.Reset?
    requires VaultTx(env, v, actor, op, now).Ok?
    ensures Onward(v, VaultTx(env, v, actor, op, now).value, d)
  {
    hide VaultOk, ActorIn, ApproveTx, RekeyTx, ActivateTx, UpgradeKeyTx, UploadTx;
    match op
    case Approve(e, k) => ApproveOnward(env, v, actor, e, k, now, d);
    case Activate(digest) => ActivateOnward(env, v, actor, digest, d);
    case Remove(e, packages) => RekeyOnward(env, v, actor, D.REMOVE, e, packages, d);
    case Rotate(e, packages) => RekeyOnward(env, v, actor, D.ROTATE, e, packages, d);
    case UpgradeKey(e) => UpgradeOnward(env, v, actor, e, d);
    case Upload(h, body) => UploadOnward(env, v, actor, h, body, d);
    case PutCheckpoint(p) => PutOnward(env, v, actor, p, now, d);
    case _ =>
  }

  lemma PutOnward(env: Env, v: Vault, actor: Actor, p: Checkpoint, now: Time, d: Text)
    requires PutCheckpointTx(env, v, actor, p, now).Ok?
    ensures Onward(v, PutCheckpointTx(env, v, actor, p, now).value, d)
  {
  }

  // ---------------------------------------------------------------------------------------------
  // Every run

  lemma BeginOnward(st: State, caller: Caller, o: Offer, now: Time, owner: Text, d: Text)
    requires caller.owner in st.vaults && owner in st.vaults && BeginTx(st, caller, o, now).Ok?
    ensures owner in BeginTx(st, caller, o, now).value.vaults
    ensures Onward(st.vaults[owner], BeginTx(st, caller, o, now).value.vaults[owner], d)
  {
    hide BeginTx, DeviceByToken, PairingByToken;
    var purged, p := BeginFacts(st, caller, o, now);
  }

  lemma RequestOnward(env: Env, st: State, ev: Event, owner: Text, d: Text)
    requires StateOk(env, st) && ev.Request? && Step(env, st, ev).answer.Ok?
    requires owner in st.vaults && owner in Step(env, st, ev).state.vaults
    ensures Onward(st.vaults[owner], Step(env, st, ev).state.vaults[owner], d)
  {
    hide Step, VaultOk, VaultTx, BeginTx, Onward;
    var start, actor := Provenance.AcceptedFacts(env, st, ev);
    Stays(st.vaults[owner], d);
    match ev.op
    case CreateVault(_) => Provenance.CreatorHadNone(env, st, ev);
    case BeginPairing(o) => BeginOnward(start, ev.caller, o, ev.clock.act, owner, d);
    case Reset(_) =>
    case _ =>
      Provenance.PerformVault(env, start, ev.caller, ev.op, actor.value, ev.clock.act);
      if owner == ev.caller.owner {
        VaultOnward(env, st.vaults[owner], actor.value, ev.op, ev.clock.act, d);
      }
  }

  lemma Stays(v: Vault, d: Text)
    ensures Onward(v, v, d)
  {
  }

  lemma QuietOnward(env: Env, st: State, ev: Event, owner: Text, d: Text)
    requires !ev.Request? && owner in st.vaults && owner in Step(env, st, ev).state.vaults
    ensures Onward(st.vaults[owner], Step(env, st, ev).state.vaults[owner], d)
  {
    hide Submit, Onward;
    Stays(st.vaults[owner], d);
    if ev.Maintain? {
      PurgeOnward(st.vaults[owner], ev.now, d);
    }
  }

  lemma PurgeOnward(v: Vault, now: Time, d: Text)
    ensures Onward(v, PurgePairings(v, now), d)
  {
  }

  lemma StepOnward(env: Env, st: State, ev: Event, owner: Text, d: Text)
    requires StateOk(env, st) && owner in st.vaults && owner in Step(env, st, ev).state.vaults
    ensures Onward(st.vaults[owner], Step(env, st, ev).state.vaults[owner], d)
  {
    hide Step, StateOk, Onward;
    if !ev.Request? {
      QuietOnward(env, st, ev, owner, d);
    } else if Step(env, st, ev).answer.Ok? {
      RequestOnward(env, st, ev, owner, d);
    } else {
      Provenance.RefusedUnchanged(env, st, ev);
      Stays(st.vaults[owner], d);
    }
  }

  /** From one moment of a run to a later one, with the owner's vault standing all the while. */
  lemma {:induction false} RunOnward(env: Env, events: seq<Event>, i: nat, j: nat, owner: Text, d: Text)
    requires env.Valid() && i <= j <= |events|
    requires forall n | i <= n <= j :: owner in Run(env, events[..n]).vaults
    ensures Onward(Run(env, events[..i]).vaults[owner], Run(env, events[..j]).vaults[owner], d)
    decreases j
  {
    hide Run, Step, StateOk, Onward;
    if i == j {
      Stays(Run(env, events[..i]).vaults[owner], d);
    } else {
      RunOnward(env, events, i, j - 1, owner, d);
      EveryReachableStateOk(env, events[..j - 1]);
      RunSnoc(env, events, j - 1);
      var a, b, c := Run(env, events[..i]).vaults[owner], Run(env, events[..j - 1]).vaults[owner],
                     Run(env, events[..j]).vaults[owner];
      StepOnward(env, Run(env, events[..j - 1]), events[j - 1], owner, d);
      OnwardTwice(a, b, c, d);
    }
  }

  lemma OnwardTwice(a: Vault, b: Vault, c: Vault, d: Text)
    requires Onward(a, b, d) && Onward(b, c, d)
    ensures Onward(a, c, d)
  {
  }

  /** While a vault stands, a device's stored checkpoint never goes back: what is stored later was observed later and
      reaches at least as far, and a device that was removed has none again. */
  lemma CheckpointNeverGoesBack(env: Env, events: seq<Event>, i: nat, j: nat, owner: Text, d: Text)
    requires env.Valid() && i <= j <= |events|
    requires forall n | i <= n <= j :: owner in Run(env, events[..n]).vaults
    requires d in Run(env, events[..i]).vaults[owner].checkpoints
    ensures
      var v, w := Run(env, events[..i]).vaults[owner], Run(env, events[..j]).vaults[owner];
      if d in w.checkpoints then NotBack(v.checkpoints[d], w.checkpoints[d]) else Gone(w, d)
  {
    hide Run, VaultOk;
    RunOnward(env, events, i, j, owner, d);
    EveryReachableStateOk(env, events[..j]);
    var w := Run(env, events[..j]).vaults[owner];
    if d in w.checkpoints {
      StoredByMember(env, w, d);
    }
  }
}
