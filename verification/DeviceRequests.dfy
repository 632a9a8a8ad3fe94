/** Which other requests of a vault's devices are accepted, and what they leave: answers and cancellations of pairings,
    activations, checkpoints, resets and reads. */
module DeviceRequests {
  import opened Basics
  import opened Records
  import opened Tables
  import opened Operations
  import opened VaultInvariant
  import opened ServiceRuns
  import opened ServicePromises
  import opened ListRequests
  import HeaderAcceptance
  import Checkpoints
  import Provenance
  import RequestSignatures

  // ---------------------------------------------------------------------------------------------
  // Pairings

  /** An answer by an activated device is accepted if and only if the request is signed with an unused nonce, the
      message has a sensible length, and the pairing is offered and has not expired. */
  lemma AcceptedAnswerIff(env: Env, events: seq<Event>, caller: Caller, d: Text, q: SignedRequest, id: Text,
                          message: seq<Byte>, clock: Clock)
    requires Acts(env, events, caller, d)
    ensures
      var st := Run(env, events);
      var v := st.vaults[caller.owner];
      var out := Submit(env, st, caller, q, AnswerPairing(id, message), clock);
      && (out.answer.Ok? <==>
          && SignedAndUnused(env, st, v, d, caller, q, clock) && 1 <= |message| <= 512
          && id in v.pairings && v.pairings[id].state == Offered && clock.act < v.pairings[id].expiresAt)
      && (out.answer.Ok? ==>
            out.state.vaults == st.vaults[caller.owner :=
              v.(pairings := v.pairings[id := v.pairings[id].(answer := message, state := Answered)])])
  {
    hide Run, VaultOk, Submit, ActorFor, SignedAndUnused;
    var st := Run(env, events);
    ActingVault(env, events, caller, d);
    DeviceRequestIff(env, st, caller, d, q, AnswerPairing(id, message), clock);
    PairingRow(env, st.vaults[caller.owner], id);
  }

  lemma PairingRow(env: Env, v: Vault, id: Text)
    requires VaultOk(env, v)
    ensures id in v.pairings ==> v.pairings[id].deviceId == id
  {
    hide LogOk, NoneLockedOut, PackagesOk, HistoryOk, CheckpointsOk;
  }

  /** Any approved device may drop any pairing with a signed request. */
  lemma AcceptedCancelIff(env: Env, events: seq<Event>, caller: Caller, d: Text, q: SignedRequest, id: Text,
                          clock: Clock)
    requires env.Valid() && caller.Known() && caller.owner in Run(env, events).vaults
    requires Speaks(Run(env, events).vaults[caller.owner], caller, d)
    ensures
      var st := Run(env, events);
      var v := st.vaults[caller.owner];
      var out := Submit(env, st, caller, q, CancelPairing(id), clock);
      && (out.answer.Ok? <==> SignedAndUnused(env, st, v, d, caller, q, clock))
      && (out.answer.Ok? ==> out.state.vaults == st.vaults[caller.owner := v.(pairings := v.pairings - {id})])
  {
    hide Run, VaultOk, Submit, ActorFor, SignedAndUnused;
    EveryReachableStateOk(env, events);
    DeviceRequestIff(env, Run(env, events), caller, d, q, CancelPairing(id), clock);
  }

  // ---------------------------------------------------------------------------------------------
  // Activation

  /** An approved device is activated if and only if its request is signed with an unused nonce and names the digest of
      the package of the current epoch that waits for it. */
  lemma AcceptedActivationIff(env: Env, events: seq<Event>, caller: Caller, d: Text, q: SignedRequest, digest: Text,
                              clock: Clock)
    requires env.Valid() && caller.Known() && caller.owner in Run(env, events).vaults
    requires Speaks(Run(env, events).vaults[caller.owner], caller, d)
    ensures
      var st := Run(env, events);
      var v := st.vaults[caller.owner];
      var out := Submit(env, st, caller, q, Activate(digest), clock);
      && (out.answer.Ok? <==>
          && SignedAndUnused(env, st, v, d, caller, q, clock)
          && d in v.packages && v.packages[d].epoch == v.epoch
          && digest == env.crypto.digest(PackageDigest(v.packages[d])))
      && (out.answer.Ok? ==>
            out.state.vaults == st.vaults[caller.owner :=
              v.(devices := v.devices[d := v.devices[d].(activatedEpoch := v.epoch)])])
  {
    hide Run, VaultOk, Submit, ActorFor, SignedAndUnused;
    EveryReachableStateOk(env, events);
    var v := Run(env, events).vaults[caller.owner];
    TokenFindsDevice(env, v, caller, d, 0);
    DeviceRequestIff(env, Run(env, events), caller, d, q, Activate(digest), clock);
    RowTokenFree(env, v, d);
  }

  lemma RowTokenFree(env: Env, v: Vault, d: Text)
    requires VaultOk(env, v) && d in v.devices && v.devices[d].state == Approved
    ensures TokenFree(v.devices, v.devices[d].(activatedEpoch := v.epoch))
  {
    hide LogOk, NoneLockedOut, PackagesOk, HistoryOk, CheckpointsOk;
  }

  // ---------------------------------------------------------------------------------------------
  // Checkpoints

  /** A later observation that reaches at least as far in the list and in the history. */
  predicate Forward(earlier: Checkpoint, later: Checkpoint) {
    && earlier.observedAt < later.observedAt
    && earlier.listIndex <= later.listIndex && earlier.headerRevision <= later.headerRevision
  }

  /** A checkpoint of an activated device is stored if and only if the request is signed with an unused nonce, the
      checkpoint is the device's own and signed with its key, at most five minutes off, and goes forward from the one
      stored. */
  lemma AcceptedCheckpointIff(env: Env, events: seq<Event>, caller: Caller, d: Text, q: SignedRequest, p: Checkpoint,
                              clock: Clock)
    requires Acts(env, events, caller, d)
    ensures
      var st := Run(env, events);
      var v := st.vaults[caller.owner];
      var out := Submit(env, st, caller, q, PutCheckpoint(p), clock);
      && (out.answer.Ok? <==>
          && SignedAndUnused(env, st, v, d, caller, q, clock)
          && HeaderAcceptance.CheckpointShaped(env.crypto, p) && p.vaultId == v.id && p.deviceId == d
          && env.crypto.SignatureHolds(v.devices[d].signingKey, CheckpointSigning(p), p.signature)
          && Unix(clock.act) - 300 <= p.observedAt <= Unix(clock.act) + 300
          && (d in v.checkpoints ==> Forward(v.checkpoints[d], p)))
      && (out.answer.Ok? ==>
            out.state.vaults == st.vaults[caller.owner := v.(checkpoints := v.checkpoints[d := p])])
  {
    hide Run, VaultOk, Submit, ActorFor, SignedAndUnused, HeaderAcceptance.CheckpointShaped,
         Checkpoints.ValidCheckpoint;
    ActingVault(env, events, caller, d);
    DeviceRequestIff(env, Run(env, events), caller, d, q, PutCheckpoint(p), clock);
    HeaderAcceptance.ValidCheckpointIsShaped(env.crypto, p);
  }

  // ---------------------------------------------------------------------------------------------
  // Resets and reads

  /** An approved device, activated or not, resets the vault if and only if its request is signed with an unused nonce
      and names the current epoch. Nothing of the vault is left, and nothing else is changed. */
  lemma AcceptedResetIff(env: Env, events: seq<Event>, caller: Caller, d: Text, q: SignedRequest, epoch: U64,
                         clock: Clock)
    requires env.Valid() && caller.Known() && caller.owner in Run(env, events).vaults
    requires Speaks(Run(env, events).vaults[caller.owner], caller, d)
    ensures
      var st := Run(env, events);
      var v := st.vaults[caller.owner];
      var out := Submit(env, st, caller, q, Reset(epoch), clock);
      && (out.answer.Ok? <==> SignedAndUnused(env, st, v, d, caller, q, clock) && epoch == v.epoch)
      && (out.answer.Ok? ==> out.state.vaults == st.vaults - {caller.owner})
  {
    hide Run, VaultOk, ActorFor, RequestSigned, RequestSignatures.ProperlySigned;
    EveryReachableStateOk(env, events);
    var v := Run(env, events).vaults[caller.owner];
    TokenFindsDevice(env, v, caller, d, clock.lookup);
    RequestSignatures.SignedIsProper(env.crypto, v.devices[d].signingKey, caller, q, Unix(clock.skew));
  }

  /** The operations only an approved device may perform, and those only an activated one may. */
  predicate ForDevices(op: Op) {
    op.Reset? || op.Activate? || ForActivated(op)
  }

  predicate ForActivated(op: Op) {
    op.AnswerPairing? || op.Approve? || op.Remove? || op.Rotate? || op.UpgradeKey? || op.Upload? || op.PutCheckpoint?
  }

  /** Nobody else gets through: whoever such a request is accepted from presented the token of an approved device, and
      for all but resets and activations of an activated one. */
  lemma OnlyDevicesAct(env: Env, events: seq<Event>, i: nat)
    requires env.Valid() && Accepted(env, events, i) && ForDevices(events[i].op)
    ensures
      var st, caller := Run(env, events[..i]), events[i].caller;
      && caller.owner in st.vaults
      && exists d :: Speaks(st.vaults[caller.owner], caller, d)
                     && (ForActivated(events[i].op) ==>
                           st.vaults[caller.owner].devices[d].activatedEpoch == st.vaults[caller.owner].epoch)
  {
    hide Run, Step, StateOk, Perform, Provenance.ActorOf;
    EveryReachableStateOk(env, events[..i]);
    var st, ev := Run(env, events[..i]), events[i];
    var start, actor := Provenance.AcceptedFacts(env, st, ev);
    ActorIsDevice(env, start, ev.caller, ev.op, actor.value, ev.clock.act);
  }

  lemma ActorIsDevice(env: Env, st: State, caller: Caller, op: Op, actor: Actor, now: Time)
    requires caller.owner in st.vaults && Provenance.ActorOf(st.vaults[caller.owner], caller, actor) && ForDevices(op)
    requires Perform(env, st, caller, op, Some(actor), now).Ok?
    ensures
      var v := st.vaults[caller.owner];
      exists d :: Speaks(v, caller, d) && (ForActivated(op) ==> v.devices[d].activatedEpoch == v.epoch)
  {
    hide Grow, Distribute, PackageSigned, PackageFits, CommitRekey, AppendEntry, PutDevice;
    var v := st.vaults[caller.owner];
    assert RequireApproved(actor).Ok? && (ForActivated(op) ==> RequireActivated(v, actor).Ok?) by {
      DeviceRequired(env, st, caller, op, actor, now);
    }
    assert Speaks(v, caller, actor.device.deviceId);
  }

  lemma DeviceRequired(env: Env, st: State, caller: Caller, op: Op, actor: Actor, now: Time)
    requires caller.owner in st.vaults && ForDevices(op) && Perform(env, st, caller, op, Some(actor), now).Ok?
    ensures RequireApproved(actor).Ok?
    ensures ForActivated(op) ==> RequireActivated(st.vaults[caller.owner], actor).Ok?
  {
    hide Grow, Distribute, PackageSigned, PackageFits, CommitRekey, AppendEntry, PutDevice,
         Checkpoints.CheckpointSigned;
  }

  /** The latest snapshot is read exactly by approved devices, once there is one. */
  lemma SnapshotIff(env: Env, events: seq<Event>, caller: Caller, now: Time)
    requires env.Valid()
    ensures
      var st := Run(env, events);
      Snapshot(st, caller, now).Ok? <==>
      && caller.Known() && caller.owner in st.vaults && st.vaults[caller.owner].currentRevision > 0
      && exists d :: Speaks(st.vaults[caller.owner], caller, d)
  {
    hide Run, VaultOk, ActorFor;
    EveryReachableStateOk(env, events);
    var st := Run(env, events);
    if caller.owner in st.vaults {
      var v := st.vaults[caller.owner];
      if Snapshot(st, caller, now).Ok? {
        Provenance.OwnActor(env, v, caller, now);
        assert Speaks(v, caller, ActorFor(v, caller, now).value.device.deviceId);
      } else if d :| Speaks(v, caller, d) {
        TokenFindsDevice(env, v, caller, d, now);
        if v.currentRevision > 0 {
          LatestIsStored(env, v);
        }
      }
    }
  }
}
