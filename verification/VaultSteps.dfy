/** Every operation on a vault keeps its invariant. */
module VaultSteps {
  import opened Basics
  import opened Records
  import opened Tables
  import opened Operations
  import opened Retention
  import opened VaultInvariant
  import D = DeviceLog
  import H = Headers
  import Checkpoints

  // ---------------------------------------------------------------------------------------------
  // Actors

  /** The actor of a request is a row of the vault's own tables. */
  ghost predicate ActorIn(v: Vault, actor: Actor) {
    match actor
    case ByDevice(d) => d.deviceId in v.devices && v.devices[d.deviceId] == d
    case ByPairing(p) => p.deviceId in v.pairings && v.pairings[p.deviceId] == p
  }

  lemma ActorForIn(v: Vault, caller: Caller, now: Time)
    requires RolesOk(v.devices, v.pairings)
    requires ActorFor(v, caller, now).Ok?
    ensures ActorIn(v, ActorFor(v, caller, now).value)
  {
  }

  // ---------------------------------------------------------------------------------------------
  // Pairings: answer, confirm, cancel

  /** Only pairings changed, and every one left is an old one or the same identity in a new state. */
  ghost predicate PairingsFrom(before: Pairings, after: Pairings) {
    forall i | i in after ::
      && i in before
      && after[i].deviceId == before[i].deviceId && after[i].token == before[i].token
  }

  lemma RolesOfFewer(devices: Devices, before: Pairings, after: Pairings)
    requires RolesOk(devices, before)
    requires PairingsFrom(before, after)
    ensures RolesOk(devices, after)
  {
    assert after.Keys <= before.Keys;
    D.SubsetSize(after.Keys, before.Keys);
  }

  lemma PairingStepKeeps(env: Env, v: Vault, actor: Actor, op: Op, now: Time)
    requires VaultOk(env, v) && ActorIn(v, actor)
    requires op.AnswerPairing? || op.ConfirmPairing? || op.CancelPairing?
    requires VaultTx(env, v, actor, op, now).Ok?
    ensures VaultOk(env, VaultTx(env, v, actor, op, now).value)
  {
    hide LogOk, NoneLockedOut, PackagesOk, HistoryOk, CheckpointsOk, RolesOk;
    var w := VaultTx(env, v, actor, op, now).value;
    assert PairingsFrom(v.pairings, w.pairings) by {
      PairingIds(v.devices, v.pairings);
    }
    RolesOfFewer(v.devices, v.pairings, w.pairings);
  }

  lemma PairingIds(devices: Devices, pairings: Pairings)
    requires RolesOk(devices, pairings)
    ensures forall i | i in pairings :: pairings[i].deviceId == i
  {
  }

  // ---------------------------------------------------------------------------------------------
  // The log grows

  /** The history still verifies against the longer list. */
  lemma HistoryOfLongerLog(env: Env, revision: U64, entries: seq<Entry>, e: Entry, headers: map<U64, StoredHeader>,
                           bodies: Bodies)
    requires entries != []
    requires HistoryOk(env, revision, entries, headers, bodies)
    requires D.Extend(env.crypto, D.Replay(env.crypto, entries).value, e).Ok?
    ensures HistoryOk(env, revision, entries + [e], headers, bodies)
  {
    hide D.Extend, D.Replay, HeadersOk, BodiesOk;
    var c := env.crypto;
    var l := D.Replay(c, entries).value;
    var history :| HistoryIs(env, revision, l, headers, bodies, history);
    D.ReplayWellFormed(c, entries);
    D.ReplaySnoc(c, entries, e);
    H.ChainIsStable(c, l, e, None, history);
    assert HistoryIs(env, revision, D.Replay(c, entries + [e]).value, headers, bodies, history);
  }

  /** A grown log stays in step with a device table changed the same way. */
  lemma LogGrows(c: Crypto, v: Vault, e: Entry, devices: Devices)
    requires LogOk(c, v.id, v.headIndex, v.epoch, v.entries, v.devices)
    requires D.Extend(c, D.Replay(c, v.entries).value, e).Ok?
    requires DevicesMatch(devices, D.Extend(c, D.Replay(c, v.entries).value, e).value.members)
    ensures LogOk(c, v.id, e.index, e.epochAfter, v.entries + [e], devices)
    ensures e.index == v.headIndex + 1
  {
    hide D.Extend, D.Replay, DevicesMatch;
    var l := D.Replay(c, v.entries).value;
    D.ReplaySnoc(c, v.entries, e);
    D.ExtendFacts(c, l, e);
  }

  /** What a checked entry says about the list it was checked against. */
  lemma GrowFacts(c: Crypto, v: Vault, e: Entry)
    requires LogOk(c, v.id, v.headIndex, v.epoch, v.entries, v.devices)
    requires Grow(c, v, e).Ok?
    ensures
      var l := D.Replay(c, v.entries).value;
      && D.Extend(c, l, e) == Ok(Grow(c, v, e).value)
      && D.WellFormed(l) && l.Head() > 0
      && e.index == |v.entries| + 1
  {
    hide D.Extend, D.Replay;
    D.ReplayWellFormed(c, v.entries);
    D.ExtendFacts(c, D.Replay(c, v.entries).value, e);
  }

  // ---------------------------------------------------------------------------------------------
  // Approve

  lemma ApproveDevices(c: Crypto, v: Vault, e: Entry, d: Device)
    requires LogOk(c, v.id, v.headIndex, v.epoch, v.entries, v.devices)
    requires Grow(c, v, e).Ok? && e.kind == D.ADD
    requires RowMatches(d, D.MemberFromEntry(e))
    ensures e.subject !in v.devices
    ensures e.epochAfter == v.epoch
    ensures DevicesMatch(v.devices[e.subject := d], Grow(c, v, e).value.members)
  {
    GrowFacts(c, v, e);
    var l := D.Replay(c, v.entries).value;
    assert e.epochAfter == l.Epoch() by {
      D.KindsDiffer();
      D.ExtendFacts(c, l, e);
    }
    hide D.Extend, D.Replay, Grow;
    D.ExtendMembers(c, l, e);
  }

  /** A confirmed pairing turns into a device: its token moves, and nothing else has it. */
  lemma RolesOfApproval(devices: Devices, pairings: Pairings, id: Text, d: Device)
    requires RolesOk(devices, pairings)
    requires id in pairings && d.deviceId == id && d.token == pairings[id].token
    ensures RolesOk(devices[id := d], pairings - {id})
    ensures TokenFree(devices, d)
  {
    var fewer := pairings - {id};
    assert fewer.Keys <= pairings.Keys;
    D.SubsetSize(fewer.Keys, pairings.Keys);
    assert TokenFree(devices, d);
    LiveTokensOfMore(devices, id, d);
    hide LiveTokensDiffer;
  }

  lemma LiveTokensOfMore(devices: Devices, id: Text, d: Device)
    requires LiveTokensDiffer(devices) && d.deviceId == id && TokenFree(devices, d)
    ensures LiveTokensDiffer(devices[id := d])
  {
  }

  lemma PackagesOfMoreDevices(c: Crypto, id: Text, devices: Devices, more: Devices, packages: map<Text, KeyPackage>)
    requires PackagesOk(c, id, devices, packages)
    requires forall i | i in devices :: i in more && more[i].signingKey == devices[i].signingKey
    ensures PackagesOk(c, id, more, packages)
  {
    hide PackageSigned;
    forall i | i in packages
      ensures PackageOk(c, id, more, i, packages[i])
    {
      assert PackageOk(c, id, devices, i, packages[i]);
    }
  }

  lemma CheckpointsOfDevices(c: Crypto, id: Text, devices: Devices, more: Devices, checkpoints: map<Text, Checkpoint>)
    requires CheckpointsOk(c, id, devices, checkpoints)
    requires forall i | i in checkpoints && i in devices && devices[i].state == Approved ::
               i in more && more[i].signingKey == devices[i].signingKey && more[i].state == Approved
    ensures CheckpointsOk(c, id, more, checkpoints)
  {
    hide Checkpoints.CheckpointSigned;
    forall i | i in checkpoints
      ensures CheckpointOk(c, id, more, i, checkpoints[i])
    {
      assert CheckpointOk(c, id, devices, i, checkpoints[i]);
    }
  }

  /** What a successful approval has checked, and the row it adds. */
  lemma ApproveFacts(env: Env, v: Vault, actor: Actor, e: Entry, k: KeyPackage, now: Time) returns (d: Device)
    requires ActorIn(v, actor)
    requires ApproveTx(env, v, actor, e, k, now).Ok?
    ensures e.kind == D.ADD && Grow(env.crypto, v, e).Ok?
    ensures e.subject in v.pairings && v.pairings[e.subject].state == Confirmed
    ensures d == Device(e.subject, v.pairings[e.subject].token, e.signingKey, e.packageKey, Approved, e.index, 0)
    ensures v.pairings[e.subject].signingKey == e.signingKey && v.pairings[e.subject].packageKey == e.packageKey
    ensures k.recipient == e.subject && k.epoch == v.epoch && k.vaultId == v.id
    ensures k.sender in v.devices && PackageSigned(env.crypto, k, v.devices[k.sender].signingKey)
    ensures ApproveTx(env, v, actor, e, k, now).value ==
            v.(entries := v.entries + [e], headIndex := e.index, devices := v.devices[e.subject := d],
               packages := v.packages[e.subject := k], pairings := v.pairings - {e.subject})
  {
    hide PackageSigned, Grow;
    d := Device(e.subject, v.pairings[e.subject].token, e.signingKey, e.packageKey, Approved, e.index, 0);
  }

  /** The new device finds its package; the others keep what they had. */
  lemma KeysOfApproval(c: Crypto, v: Vault, d: Device, k: KeyPackage)
    requires RolesOk(v.devices, v.pairings)
    requires NoneLockedOut(v.epoch, v.devices, v.packages)
    requires PackagesOk(c, v.id, v.devices, v.packages)
    requires d.deviceId !in v.devices
    requires k.recipient == d.deviceId && k.epoch == v.epoch && k.vaultId == v.id
    requires k.sender in v.devices && PackageSigned(c, k, v.devices[k.sender].signingKey)
    ensures NoneLockedOut(v.epoch, v.devices[d.deviceId := d], v.packages[d.deviceId := k])
    ensures PackagesOk(c, v.id, v.devices[d.deviceId := d], v.packages[d.deviceId := k])
  {
    hide PackageSigned;
    PackagesOfMoreDevices(c, v.id, v.devices, v.devices[d.deviceId := d], v.packages);
  }

  lemma ApproveKeeps(env: Env, v: Vault, actor: Actor, e: Entry, k: KeyPackage, now: Time)
    requires VaultOk(env, v) && ActorIn(v, actor)
    requires ApproveTx(env, v, actor, e, k, now).Ok?
    ensures VaultOk(env, ApproveTx(env, v, actor, e, k, now).value)
  {
    hide LogOk, HistoryOk, CheckpointsOk, RolesOk, NoneLockedOut, PackagesOk, PackageSigned, Grow, ApproveTx, D.Extend,
         D.Replay;
    var c, w := env.crypto, ApproveTx(env, v, actor, e, k, now).value;
    var d := ApproveFacts(env, v, actor, e, k, now);
    GrowFacts(c, v, e);
    ApproveDevices(c, v, e, d);
    LogGrows(c, v, e, w.devices);
    RolesOfApproval(v.devices, v.pairings, e.subject, d);
    LogNotEmpty(c, v);
    HistoryOfLongerLog(env, v.currentRevision, v.entries, e, v.headers, v.ciphertexts);
    CheckpointsOfDevices(c, v.id, v.devices, w.devices, v.checkpoints);
    KeysOfApproval(c, v, d, k);
  }

  lemma LogNotEmpty(c: Crypto, v: Vault)
    requires LogOk(c, v.id, v.headIndex, v.epoch, v.entries, v.devices)
    ensures v.entries != []
  {
  }

  lemma DeviceIds(devices: Devices, pairings: Pairings)
    requires RolesOk(devices, pairings)
    ensures forall i | i in devices :: devices[i].deviceId == i
  {
  }

  // ---------------------------------------------------------------------------------------------
  // Activate and UpgradeKey: one device row changes, its identity does not

  predicate SameIdentity(a: Device, b: Device) {
    && a.deviceId == b.deviceId && a.token == b.token && a.signingKey == b.signingKey
    && a.addedIndex == b.addedIndex && a.state == b.state
  }

  lemma RolesOfUpdate(devices: Devices, pairings: Pairings, d: Device)
    requires RolesOk(devices, pairings)
    requires d.deviceId in devices && SameIdentity(d, devices[d.deviceId])
    ensures RolesOk(devices[d.deviceId := d], pairings)
  {
    var more := devices[d.deviceId := d];
    assert more.Keys == devices.Keys;
    assert forall i | i in more :: SameIdentity(more[i], devices[i]);
  }

  lemma ActivateKeeps(env: Env, v: Vault, actor: Actor, digest: Text)
    requires VaultOk(env, v) && ActorIn(v, actor)
    requires ActivateTx(env, v, actor, digest).Ok?
    ensures VaultOk(env, ActivateTx(env, v, actor, digest).value)
  {
    hide HistoryOk, CheckpointsOk, RolesOk, PackagesOk, LogOk, NoneLockedOut, ActivateTx;
    var c := env.crypto;
    var d := ActivateFacts(env, v, actor, digest);
    var devices := v.devices[d.deviceId := d];
    RolesOfUpdate(v.devices, v.pairings, d);
    PackagesOfMoreDevices(c, v.id, v.devices, devices, v.packages);
    CheckpointsOfDevices(c, v.id, v.devices, devices, v.checkpoints);
    ActivatedRow(c, v, d);
  }

  lemma ActivateFacts(env: Env, v: Vault, actor: Actor, digest: Text) returns (d: Device)
    requires ActorIn(v, actor)
    requires ActivateTx(env, v, actor, digest).Ok?
    ensures d.deviceId in v.devices && d == v.devices[d.deviceId].(activatedEpoch := v.epoch)
    ensures ActivateTx(env, v, actor, digest).value == v.(devices := v.devices[d.deviceId := d])
  {
    d := actor.device.(activatedEpoch := v.epoch);
  }

  /** The activated row says the same of the log, and its device has the key. */
  lemma ActivatedRow(c: Crypto, v: Vault, d: Device)
    requires LogOk(c, v.id, v.headIndex, v.epoch, v.entries, v.devices)
    requires NoneLockedOut(v.epoch, v.devices, v.packages)
    requires d.deviceId in v.devices && d == v.devices[d.deviceId].(activatedEpoch := v.epoch)
    ensures LogOk(c, v.id, v.headIndex, v.epoch, v.entries, v.devices[d.deviceId := d])
    ensures NoneLockedOut(v.epoch, v.devices[d.deviceId := d], v.packages)
  {
    hide D.Replay;
    assert v.devices[d.deviceId := d].Keys == v.devices.Keys;
  }

  lemma UpgradeDevices(c: Crypto, v: Vault, e: Entry, d: Device)
    requires LogOk(c, v.id, v.headIndex, v.epoch, v.entries, v.devices)
    requires Grow(c, v, e).Ok? && e.kind == D.KEY
    requires e.signer in v.devices && d == v.devices[e.signer].(packageKey := e.packageKey)
    ensures e.epochAfter == v.epoch
    ensures DevicesMatch(v.devices[e.signer := d], Grow(c, v, e).value.members)
  {
    D.KindsDiffer();
    GrowFacts(c, v, e);
    var l := D.Replay(c, v.entries).value;
    hide D.Extend, D.Replay, Grow;
    D.ExtendFacts(c, l, e);
    D.ExtendMembers(c, l, e);
    assert v.devices[e.signer := d].Keys == v.devices.Keys;
    assert l.members[e.subject := D.Changed(l.members[e.subject], e)].Keys == l.members.Keys;
  }

  lemma UpgradeFacts(env: Env, v: Vault, actor: Actor, e: Entry) returns (d: Device)
    requires RolesOk(v.devices, v.pairings) && ActorIn(v, actor)
    requires UpgradeKeyTx(env, v, actor, e).Ok?
    ensures e.kind == D.KEY && Grow(env.crypto, v, e).Ok?
    ensures e.signer in v.devices && d == v.devices[e.signer].(packageKey := e.packageKey)
    ensures d.deviceId == e.signer
    ensures UpgradeKeyTx(env, v, actor, e).value ==
            v.(entries := v.entries + [e], headIndex := e.index, devices := v.devices[e.signer := d])
  {
    hide Grow;
    d := actor.device.(packageKey := e.packageKey);
  }

  lemma UpgradeKeyKeeps(env: Env, v: Vault, actor: Actor, e: Entry)
    requires VaultOk(env, v) && ActorIn(v, actor)
    requires UpgradeKeyTx(env, v, actor, e).Ok?
    ensures VaultOk(env, UpgradeKeyTx(env, v, actor, e).value)
  {
    hide LogOk, HistoryOk, CheckpointsOk, RolesOk, PackagesOk, Grow, UpgradeKeyTx, D.Extend, D.Replay;
    var c, w := env.crypto, UpgradeKeyTx(env, v, actor, e).value;
    var d := UpgradeFacts(env, v, actor, e);
    GrowFacts(c, v, e);
    UpgradeDevices(c, v, e, d);
    LogGrows(c, v, e, w.devices);
    RolesOfUpdate(v.devices, v.pairings, d);
    LogNotEmpty(c, v);
    HistoryOfLongerLog(env, v.currentRevision, v.entries, e, v.headers, v.ciphertexts);
    CheckpointsOfDevices(c, v.id, v.devices, w.devices, v.checkpoints);
    PackagesOfMoreDevices(c, v.id, v.devices, w.devices, v.packages);
  }

  // ---------------------------------------------------------------------------------------------
  // Remove and Rotate

  /** A package that serves recipient i at the entry's epoch. */
  ghost predicate Serves(c: Crypto, v: Vault, sender: Device, e: Entry, i: Text, k: KeyPackage) {
    k.recipient == i && PackageFits(c, v, sender, k, e.epochAfter, e) && PackageSigned(c, k, sender.signingKey)
  }

  lemma DistributeStep(c: Crypto, v: Vault, sender: Device, e: Entry, expected: set<Text>,
                       packages: seq<KeyPackage>, table: map<Text, KeyPackage>)
    requires packages != []
    requires Distribute(c, v, sender, e, expected, packages, table).Ok?
    ensures
      var k := packages[0];
      && k.recipient in expected
      && Serves(c, v, sender, e, k.recipient, k)
      && Distribute(c, v, sender, e, expected, packages, table) ==
         Distribute(c, v, sender, e, expected - {k.recipient}, packages[1..], table[k.recipient := k])
  {
    hide PackageSigned, PackageFits;
  }

  /** Each package drew a different recipient out of the expected set. */
  lemma {:induction false} DistributeCounts(c: Crypto, v: Vault, sender: Device, e: Entry, expected: set<Text>,
                                            packages: seq<KeyPackage>, table: map<Text, KeyPackage>)
    requires table.Keys !! expected
    requires Distribute(c, v, sender, e, expected, packages, table).Ok?
    ensures
      var all := Distribute(c, v, sender, e, expected, packages, table).value;
      table.Keys <= all.Keys <= table.Keys + expected && |all| == |table| + |packages|
    decreases |packages|
  {
    hide Distribute, Serves;
    if packages == [] {
      DistributeNone(c, v, sender, e, expected, table);
      return;
    }
    DistributeStep(c, v, sender, e, expected, packages, table);
    var k := packages[0];
    assert k.recipient !in table;
    var more := table[k.recipient := k];
    OneMoreKey(table, k.recipient, k);
    OneLeft(table.Keys, expected, k.recipient);
    DistributeCounts(c, v, sender, e, expected - {k.recipient}, packages[1..], more);
  }

  lemma OneMoreKey<T, U>(table: map<T, U>, x: T, y: U)
    requires x !in table
    ensures table[x := y].Keys == table.Keys + {x} && |table[x := y]| == |table| + 1
  {
    assert table[x := y].Keys == table.Keys + {x};
  }

  /** Moving one element from the right set to the left keeps them apart and their union the same. */
  lemma OneLeft<T>(left: set<T>, right: set<T>, x: T)
    requires left !! right && x in right
    ensures (left + {x}) !! (right - {x}) && left + {x} + (right - {x}) == left + right && left <= left + {x}
  {
  }

  lemma DistributeNone(c: Crypto, v: Vault, sender: Device, e: Entry, expected: set<Text>, table: map<Text, KeyPackage>)
    ensures Distribute(c, v, sender, e, expected, [], table) == Ok(table)
  {
  }

  lemma {:induction false} DistributeServes(c: Crypto, v: Vault, sender: Device, e: Entry, expected: set<Text>,
                                            packages: seq<KeyPackage>, table: map<Text, KeyPackage>)
    requires forall i | i in table :: Serves(c, v, sender, e, i, table[i])
    requires Distribute(c, v, sender, e, expected, packages, table).Ok?
    ensures
      var all := Distribute(c, v, sender, e, expected, packages, table).value;
      forall i | i in all :: Serves(c, v, sender, e, i, all[i])
    decreases |packages|
  {
    if packages != [] {
      DistributeStep(c, v, sender, e, expected, packages, table);
      hide Distribute, Serves;
      var k := packages[0];
      DistributeServes(c, v, sender, e, expected - {k.recipient}, packages[1..], table[k.recipient := k]);
    }
  }

  /** As many packages as survivors, none repeated and none unexpected: every survivor has one. */
  lemma EverySurvivorServed(c: Crypto, v: Vault, sender: Device, e: Entry, expected: set<Text>,
                            packages: seq<KeyPackage>)
    requires |packages| == |expected|
    requires Distribute(c, v, sender, e, expected, packages, map[]).Ok?
    ensures
      var all := Distribute(c, v, sender, e, expected, packages, map[]).value;
      && all.Keys == expected
      && (forall i | i in all :: Serves(c, v, sender, e, i, all[i]))
  {
    hide Serves, Distribute;
    DistributeCounts(c, v, sender, e, expected, packages, map[]);
    DistributeServes(c, v, sender, e, expected, packages, map[]);
    var all := Distribute(c, v, sender, e, expected, packages, map[]).value;
    assert all.Keys <= expected;
    SameSize(all.Keys, expected);
  }

  lemma SameSize<T>(a: set<T>, b: set<T>)
    requires a <= b && |a| == |b|
    ensures a == b
  {
    if x :| x in b && x !in a {
      D.SubsetSize(a, b - {x});
    }
  }

  lemma RekeyFacts(env: Env, v: Vault, actor: Actor, kind: Text, e: Entry, packages: seq<KeyPackage>)
    requires RolesOk(v.devices, v.pairings) && ActorIn(v, actor)
    requires RekeyTx(env, v, actor, kind, e, packages).Ok?
    ensures e.kind == kind && Grow(env.crypto, v, e).Ok?
    ensures e.signer in v.devices && v.devices[e.signer].state == Approved
    ensures
      var c, d := env.crypto, v.devices[e.signer];
      var expected := Grow(c, v, e).value.Current() - {e.signer};
      && d.deviceId == e.signer
      && |packages| == |expected|
      && Distribute(c, v, d, e, expected, packages, map[]).Ok?
      && RekeyTx(env, v, actor, kind, e, packages).value ==
           v.(entries := v.entries + [e], headIndex := e.index, epoch := e.epochAfter,
              packages := Distribute(c, v, d, e, expected, packages, map[]).value,
              devices := RekeyedDevices(kind, e.signer, e, v.devices),
              pairings := map[],
              checkpoints := if kind == D.REMOVE then v.checkpoints - {e.subject} else v.checkpoints)
  {
    hide Grow, Distribute;
  }

  /** A row after a rekey says of its device what the log does. */
  lemma RekeyedRow(kind: Text, e: Entry, d: Device, m: D.Member)
    requires RowMatches(d, m) && e.kind == kind && e.index != 0 && (kind == D.REMOVE || kind == D.ROTATE)
    ensures RowMatches(RekeyedDevice(kind, e.signer, e, d), if d.deviceId == e.subject then D.Changed(m, e) else m)
  {
    D.KindsDiffer();
  }

  lemma RekeyDevices(c: Crypto, v: Vault, kind: Text, e: Entry)
    requires LogOk(c, v.id, v.headIndex, v.epoch, v.entries, v.devices)
    requires Grow(c, v, e).Ok? && e.kind == kind && (kind == D.REMOVE || kind == D.ROTATE)
    ensures e.subject in v.devices
    ensures DevicesMatch(RekeyedDevices(kind, e.signer, e, v.devices), Grow(c, v, e).value.members)
  {
    hide D.Extend, D.Replay, Grow, D.EntrySigned, D.Changed, RowMatches, RekeyedDevice, D.WellFormedMember;
    D.KindsDiffer();
    GrowFacts(c, v, e);
    var l := D.Replay(c, v.entries).value;
    D.ExtendMembers(c, l, e);
    var members := Grow(c, v, e).value.members;
    var after := RekeyedDevices(kind, e.signer, e, v.devices);
    assert e.subject in l.members && members == l.members[e.subject := D.Changed(l.members[e.subject], e)];
    assert after.Keys == v.devices.Keys == members.Keys;
    forall i | i in after
      ensures RowMatches(after[i], members[i])
    {
      RowIds(v.devices[i], l.members[i]);
      RekeyedRow(kind, e, v.devices[i], l.members[i]);
    }
  }

  lemma RowIds(d: Device, m: D.Member)
    requires RowMatches(d, m)
    ensures d.deviceId == m.deviceId
  {
  }

  lemma RolesOfRekey(kind: Text, e: Entry, devices: Devices, pairings: Pairings)
    requires RolesOk(devices, pairings)
    ensures RolesOk(RekeyedDevices(kind, e.signer, e, devices), map[])
  {
    var after := RekeyedDevices(kind, e.signer, e, devices);
    assert forall i | i in after :: i in devices && after[i].token == devices[i].token
                                    && after[i].deviceId == devices[i].deviceId
                                        && (Live(after[i]) ==> Live(devices[i]));
  }

  /** With a package for every survivor but the signer, nobody who stays is locked out. */
  lemma KeysOfTable(c: Crypto, v: Vault, l: D.List, kind: Text, e: Entry, table: map<Text, KeyPackage>)
    requires e.signer in v.devices && v.devices[e.signer].deviceId == e.signer
    requires DevicesMatch(RekeyedDevices(kind, e.signer, e, v.devices), l.members)
    requires forall i | i in v.devices :: v.devices[i].deviceId == i
    requires table.Keys == l.Current() - {e.signer}
    requires forall i | i in table :: Serves(c, v, v.devices[e.signer], e, i, table[i])
    ensures NoneLockedOut(e.epochAfter, RekeyedDevices(kind, e.signer, e, v.devices), table)
    ensures PackagesOk(c, v.id, RekeyedDevices(kind, e.signer, e, v.devices), table)
  {
    hide PackageSigned;
    var devices := RekeyedDevices(kind, e.signer, e, v.devices);
    forall i | i in devices && devices[i].state == Approved
      ensures HasKey(e.epochAfter, devices[i], table)
    {
      assert RowMatches(devices[i], l.members[i]);
      if i != e.signer {
        assert i in table;
      }
    }
    forall i | i in table
      ensures PackageOk(c, v.id, devices, i, table[i])
    {
      assert Serves(c, v, v.devices[e.signer], e, i, table[i]);
    }
  }

  lemma RekeyKeeps(env: Env, v: Vault, actor: Actor, kind: Text, e: Entry, packages: seq<KeyPackage>)
    requires VaultOk(env, v) && ActorIn(v, actor)
    requires kind == D.REMOVE || kind == D.ROTATE
    requires RekeyTx(env, v, actor, kind, e, packages).Ok?
    ensures VaultOk(env, RekeyTx(env, v, actor, kind, e, packages).value)
  {
    hide LogOk, HistoryOk, CheckpointsOk, RolesOk, NoneLockedOut, PackagesOk, Grow, RekeyTx, Distribute, Serves,
         DevicesMatch, D.Extend, D.Replay;
    var c, w := env.crypto, RekeyTx(env, v, actor, kind, e, packages).value;
    RekeyFacts(env, v, actor, kind, e, packages);
    GrowFacts(c, v, e);
    RekeyDevices(c, v, kind, e);
    LogGrows(c, v, e, w.devices);
    RolesOfRekey(kind, e, v.devices, v.pairings);
    DeviceIds(v.devices, v.pairings);
    EverySurvivorServed(c, v, v.devices[e.signer], e, Grow(c, v, e).value.Current() - {e.signer}, packages);
    KeysOfTable(c, v, Grow(c, v, e).value, kind, e, w.packages);
    LogNotEmpty(c, v);
    HistoryOfLongerLog(env, v.currentRevision, v.entries, e, v.headers, v.ciphertexts);
    CheckpointsOfRekey(c, v, kind, e);
  }

  /** A rekey keeps every row and its key, and revokes at most the subject of a removal. */
  lemma RekeyedRows(kind: Text, e: Entry, devices: Devices)
    requires forall i | i in devices :: devices[i].deviceId == i
    ensures
      var after := RekeyedDevices(kind, e.signer, e, devices);
      forall i | i in devices ::
        && i in after && after[i].signingKey == devices[i].signingKey
        && ((kind == D.REMOVE && i == e.subject) || after[i].state == devices[i].state)
  {
  }

  lemma CheckpointsOfRekey(c: Crypto, v: Vault, kind: Text, e: Entry)
    requires RolesOk(v.devices, v.pairings)
    requires CheckpointsOk(c, v.id, v.devices, v.checkpoints)
    ensures CheckpointsOk(c, v.id, RekeyedDevices(kind, e.signer, e, v.devices),
                          if kind == D.REMOVE then v.checkpoints - {e.subject} else v.checkpoints)
  {
    hide RolesOk, CheckpointOk, RekeyedDevices;
    DeviceIds(v.devices, v.pairings);
    RekeyedRows(kind, e, v.devices);
    var left := if kind == D.REMOVE then v.checkpoints - {e.subject} else v.checkpoints;
    assert CheckpointsOk(c, v.id, v.devices, left);
    CheckpointsOfDevices(c, v.id, v.devices, RekeyedDevices(kind, e.signer, e, v.devices), left);
  }

  // ---------------------------------------------------------------------------------------------
  // Checkpoints

  lemma PutCheckpointKeeps(env: Env, v: Vault, actor: Actor, p: Checkpoint, now: Time)
    requires VaultOk(env, v) && ActorIn(v, actor)
    requires PutCheckpointTx(env, v, actor, p, now).Ok?
    ensures VaultOk(env, PutCheckpointTx(env, v, actor, p, now).value)
  {
    hide LogOk, HistoryOk, RolesOk, NoneLockedOut, PackagesOk, Checkpoints.CheckpointSigned;
  }
}
