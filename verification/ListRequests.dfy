/** Which changes of the device list are accepted: approvals, removals, rotations and key upgrades, read off the stored
    log and rows alone. */
module ListRequests {
  import opened Basics
  import opened Records
  import opened Tables
  import opened Operations
  import opened VaultInvariant
  import opened ServiceRuns
  import VaultSteps
  import ServicePromises
  import L = LogAcceptance
  import D = DeviceLog

  /** The row of an approved and activated device. */
  predicate Activated(v: Vault, d: Text) {
    d in v.devices && v.devices[d].deviceId == d && v.devices[d].state == Approved
    && v.devices[d].activatedEpoch == v.epoch
  }

  // ---------------------------------------------------------------------------------------------
  // The next entry of a vault's list

  /** An entry of that kind at the head of the vault's list, signed with the device's key. */
  predicate NextEntry(c: Crypto, v: Vault, d: Text, kind: Text, epoch: nat, e: Entry)
    requires v.entries != [] && d in v.devices
  {
    && L.WellShaped(c, e) && e.kind == kind && e.signer == d && e.vaultId == v.id
    && e.index == |v.entries| + 1 && e.previousDigest == c.DigestOfEntry(v.entries[|v.entries| - 1])
    && e.epochAfter == epoch
    && c.SignatureHolds(v.devices[d].signingKey, EntrySigning(e), e.signature)
  }

  /** What the vault stores of its list is what the log says. */
  lemma StoredList(c: Crypto, v: Vault, d: Text)
    requires LogOk(c, v.id, v.headIndex, v.epoch, v.entries, v.devices) && d in v.devices
    requires v.devices[d].state == Approved
    ensures v.entries != [] && D.Replay(c, v.entries).Ok? && v.headIndex == |v.entries|
    ensures v.entries[0].vaultId == v.id && L.LogEpoch(v.entries) == v.epoch
    ensures
      var holder := D.Holder(v.entries, d);
      && holder.Some? && holder.value.signingKey == v.devices[d].signingKey
      && holder.value.packageKey == v.devices[d].packageKey
  {
    hide D.Replay, D.Holder, L.LogEpoch;
    var l := D.Replay(c, v.entries).value;
    L.ListAtHead(c, v.entries);
    D.CurrentIsHolder(c, v.entries, d);
    assert RowMatches(v.devices[d], l.members[d]);
  }

  /** The stored list takes an entry of the device exactly when the log says so. */
  lemma GrowIff(c: Crypto, v: Vault, d: Text, e: Entry)
    requires LogOk(c, v.id, v.headIndex, v.epoch, v.entries, v.devices) && d in v.devices
    requires v.devices[d].state == Approved && e.signer == d
    ensures v.entries != []
    ensures Grow(c, v, e).Ok? <==> NextEntry(c, v, d, e.kind, e.epochAfter, e) && L.MayHappen(c, v.entries, e)
    ensures Grow(c, v, e).Ok? ==>
              && D.Replay(c, v.entries + [e]).Ok?
              && Grow(c, v, e).value == D.Replay(c, v.entries + [e]).value
  {
    StoredList(c, v, d);
    L.AppendIff(c, v.entries, e);
    D.ReplaySnoc(c, v.entries, e);
    hide D.Replay, D.Extend, D.Holder, L.MayHappen, L.WellShaped, L.LogEpoch, LogOk;
  }

  lemma LogOf(env: Env, v: Vault)
    requires VaultOk(env, v)
    ensures LogOk(env.crypto, v.id, v.headIndex, v.epoch, v.entries, v.devices) && v.entries != []
    ensures v.headIndex == |v.entries|
    ensures RolesOk(v.devices, v.pairings) && forall i | i in v.devices :: v.devices[i].deviceId == i
  {
    hide NoneLockedOut, PackagesOk, HistoryOk, CheckpointsOk, D.Replay;
  }

  // ---------------------------------------------------------------------------------------------
  // Packages

  /** A package of the device for the entry's epoch, signed with the device's key. */
  predicate GoodPackage(c: Crypto, v: Vault, d: Text, e: Entry, k: KeyPackage)
    requires d in v.devices
  {
    && k.vaultId == v.id && k.sender == d && k.epoch == e.epochAfter
    && k.entryDigest == c.DigestOfEntry(e) && c.Decodes(k.entryDigest, 32)
    && D.OpaqueId(k.recipient)
    && c.decode(k.ciphertext).Some? && 16 <= |c.decode(k.ciphertext).value| <= 65536
    && c.SignatureHolds(v.devices[d].signingKey, PackageSigning(k), k.signature)
  }

  /** For a well-shaped entry of the device these are the service's checks of one package. */
  lemma GoodIff(c: Crypto, v: Vault, d: Text, e: Entry, k: KeyPackage)
    requires d in v.devices && v.devices[d].deviceId == d
    requires L.WellShaped(c, e) && e.signer == d && e.vaultId == v.id
    ensures GoodPackage(c, v, d, e, k) <==>
            PackageFits(c, v, v.devices[d], k, e.epochAfter, e) && PackageSigned(c, k, v.devices[d].signingKey)
  {
    hide L.ShapeOf, L.Fits, D.OpaqueId;
    assert e.vaultId in {e.vaultId, e.signer, e.subject} && e.signer in {e.vaultId, e.signer, e.subject};
  }

  function Recipients(packages: seq<KeyPackage>): set<Text> {
    set i | 0 <= i < |packages| :: packages[i].recipient
  }

  predicate Distinct(packages: seq<KeyPackage>) {
    forall i, j | 0 <= i < j < |packages| :: packages[i].recipient != packages[j].recipient
  }

  /** One good package for each survivor, and no other. */
  predicate OnePackageEach(c: Crypto, v: Vault, d: Text, e: Entry, survivors: set<Text>, packages: seq<KeyPackage>)
    requires d in v.devices
  {
    && (forall i | 0 <= i < |packages| :: GoodPackage(c, v, d, e, packages[i]))
    && Distinct(packages) && Recipients(packages) == survivors
  }

  lemma {:induction false} RecipientsCount(packages: seq<KeyPackage>)
    requires Distinct(packages)
    ensures |Recipients(packages)| == |packages|
  {
    if packages != [] {
      var rest := packages[1..];
      assert forall i | 0 <= i < |rest| :: rest[i] == packages[i + 1];
      RecipientsCount(rest);
      assert Recipients(packages) == Recipients(rest) + {packages[0].recipient};
      assert packages[0].recipient !in Recipients(rest);
    }
  }

  ghost predicate AllServe(c: Crypto, v: Vault, sender: Device, e: Entry, expected: set<Text>,
                           packages: seq<KeyPackage>) {
    forall i | 0 <= i < |packages| ::
      && packages[i].recipient in expected
      && PackageFits(c, v, sender, packages[i], e.epochAfter, e) && PackageSigned(c, packages[i], sender.signingKey)
  }

  /** Striking recipients off succeeds exactly when each package serves an expected recipient and none comes twice. */
  lemma {:induction false} DistributeIff(c: Crypto, v: Vault, sender: Device, e: Entry, expected: set<Text>,
                                         packages: seq<KeyPackage>, table: map<Text, KeyPackage>)
    ensures Distribute(c, v, sender, e, expected, packages, table).Ok? <==>
            AllServe(c, v, sender, e, expected, packages) && Distinct(packages)
    decreases |packages|
  {
    hide PackageFits, PackageSigned;
    if packages != [] {
      var k, rest := packages[0], packages[1..];
      DistributeIff(c, v, sender, e, expected - {k.recipient}, rest, table[k.recipient := k]);
      assert forall i | 0 < i < |packages| :: packages[i] == rest[i - 1];
      assert Distinct(packages) <==>
             Distinct(rest) && forall i | 0 <= i < |rest| :: rest[i].recipient != k.recipient;
      assert AllServe(c, v, sender, e, expected, packages) <==>
             && AllServe(c, v, sender, e, expected, rest) && k.recipient in expected
             && PackageFits(c, v, sender, k, e.epochAfter, e) && PackageSigned(c, k, sender.signingKey);
      assert AllServe(c, v, sender, e, expected - {k.recipient}, rest) <==>
             && AllServe(c, v, sender, e, expected, rest)
             && forall i | 0 <= i < |rest| :: rest[i].recipient != k.recipient;
    }
  }

  /** As many packages as survivors, and the strike-off succeeds: one good package each. */
  lemma ServedIff(c: Crypto, v: Vault, d: Text, e: Entry, survivors: set<Text>, packages: seq<KeyPackage>)
    requires d in v.devices && v.devices[d].deviceId == d
    requires L.WellShaped(c, e) && e.signer == d && e.vaultId == v.id
    ensures |packages| == |survivors| && Distribute(c, v, v.devices[d], e, survivors, packages, map[]).Ok? <==>
            OnePackageEach(c, v, d, e, survivors, packages)
  {
    hide Distribute, PackageFits, PackageSigned, GoodPackage, L.WellShaped;
    DistributeIff(c, v, v.devices[d], e, survivors, packages, map[]);
    forall i | 0 <= i < |packages| {
      GoodIff(c, v, d, e, packages[i]);
    }
    if Distinct(packages) {
      RecipientsCount(packages);
      if AllServe(c, v, v.devices[d], e, survivors, packages) && |packages| == |survivors| {
        assert Recipients(packages) <= survivors;
        VaultSteps.SameSize(Recipients(packages), survivors);
      }
    }
  }

  // ---------------------------------------------------------------------------------------------
  // Removals and rotations

  /** Who needs the new key: the members by the log, without the signer and without who is removed. */
  function Survivors(v: Vault, d: Text, kind: Text, e: Entry): set<Text> {
    L.Members(v.entries) - {d} - (if kind == D.REMOVE then {e.subject} else {})
  }

  lemma MembersAfter(entries: seq<Entry>, e: Entry)
    requires e.kind == D.REMOVE || e.kind == D.ROTATE
    ensures L.Members(entries + [e]) == L.Members(entries) - (if e.kind == D.REMOVE then {e.subject} else {})
  {
    D.KindsDiffer();
    var all := entries + [e];
    assert all[..|entries|] == entries;
    assert forall k | 0 <= k < |entries| :: all[k] == entries[k];
    forall d
      ensures D.Holder(all, d).Some? <==> D.Holder(entries, d).Some? && !(e.kind == D.REMOVE && d == e.subject)
    {
    }
    hide D.Holder;
    forall d
      ensures d in L.Members(all) <==> d in L.Members(entries) && !(e.kind == D.REMOVE && d == e.subject)
    {
      MemberIff(all, d);
      MemberIff(entries, d);
    }
  }

  lemma MemberIff(entries: seq<Entry>, d: Text)
    ensures d in L.Members(entries) <==> D.Holder(entries, d).Some?
  {
    hide D.Holder;
    if D.Holder(entries, d).Some? {
      L.HoldersAreSubjects(entries, d);
    }
  }

  /** What a removal or rotation by the device needs of the vault. */
  ghost predicate MayRekey(c: Crypto, v: Vault, d: Text, kind: Text, e: Entry, packages: seq<KeyPackage>)
    requires v.entries != [] && d in v.devices
  {
    && NextEntry(c, v, d, kind, v.epoch + 1, e)
    && (kind == D.REMOVE ==> D.Holder(v.entries, e.subject).Some?)
    && OnePackageEach(c, v, d, e, Survivors(v, d, kind, e), packages)
  }

  /** What a removal or rotation leaves: the entry appended, the new epoch held by the signer alone until the others
      activate, the new packages, no pairing, and of the rest only the removed device's row and checkpoint changed. */
  ghost predicate Rekeyed(v: Vault, w: Vault, d: Text, kind: Text, e: Entry, packages: seq<KeyPackage>) {
    && w == v.(entries := v.entries + [e], headIndex := e.index, epoch := e.epochAfter, pairings := map[],
               devices := w.devices, packages := w.packages, checkpoints := w.checkpoints)
    && w.devices.Keys == v.devices.Keys
    && (forall i | i in v.devices && i != d && !(kind == D.REMOVE && i == e.subject) :: w.devices[i] == v.devices[i])
    && (kind == D.REMOVE && e.subject in v.devices ==>
          w.devices[e.subject] == v.devices[e.subject].(state := Revoked))
    && (d in v.devices && !(kind == D.REMOVE && e.subject == d) ==>
          w.devices[d] == v.devices[d].(activatedEpoch := e.epochAfter))
    && w.packages.Keys == Recipients(packages)
    && (forall i | 0 <= i < |packages| :: w.packages[packages[i].recipient] == packages[i])
    && w.checkpoints == v.checkpoints - (if kind == D.REMOVE then {e.subject} else {})
  }

  /** The table a strike-off builds holds exactly the packages, under their recipients. */
  lemma {:induction false} DistributeTable(c: Crypto, v: Vault, sender: Device, e: Entry, expected: set<Text>,
                                           packages: seq<KeyPackage>, table: map<Text, KeyPackage>)
    requires Distribute(c, v, sender, e, expected, packages, table).Ok?
    ensures
      var all := Distribute(c, v, sender, e, expected, packages, table).value;
      && all.Keys == table.Keys + Recipients(packages)
      && (forall i | 0 <= i < |packages| :: all[packages[i].recipient] == packages[i])
      && (forall i | i in table && i !in Recipients(packages) :: all[i] == table[i])
    decreases |packages|
  {
    hide PackageFits, PackageSigned;
    if packages != [] {
      var k, rest := packages[0], packages[1..];
      DistributeTable(c, v, sender, e, expected - {k.recipient}, rest, table[k.recipient := k]);
      DistributeIff(c, v, sender, e, expected - {k.recipient}, rest, table[k.recipient := k]);
      hide Distribute;
      assert forall i | 0 < i < |packages| :: packages[i] == rest[i - 1];
      assert Recipients(packages) == Recipients(rest) + {k.recipient};
      assert k.recipient !in Recipients(rest);
    }
  }

  lemma RekeyedRows(kind: Text, d: Text, e: Entry, devices: Devices)
    requires forall i | i in devices :: devices[i].deviceId == i
    ensures
      var after := RekeyedDevices(kind, d, e, devices);
      && after.Keys == devices.Keys
      && (forall i | i in devices && i != d && !(kind == D.REMOVE && i == e.subject) :: after[i] == devices[i])
      && (kind == D.REMOVE && e.subject in devices ==> after[e.subject] == devices[e.subject].(state := Revoked))
      && (d in devices && devices[d].state == Approved && !(kind == D.REMOVE && e.subject == d) ==>
            after[d] == devices[d].(activatedEpoch := e.epochAfter))
  {
  }

  /** The checks of a rekey by an activated device, one after the other. */
  lemma RekeyChecks(env: Env, v: Vault, d: Text, kind: Text, e: Entry, packages: seq<KeyPackage>)
    requires Activated(v, d) && v.headIndex == |v.entries| && TokenFree(v.devices, v.devices[d])
    ensures
      var done := RekeyTx(env, v, ByDevice(v.devices[d]), kind, e, packages);
      && (done.Ok? <==>
          && e.kind == kind && e.signer == d && e.vaultId == v.id && e.index == v.headIndex + 1
          && Grow(env.crypto, v, e).Ok?
          && var expected := Grow(env.crypto, v, e).value.Current() - {d};
             && |packages| == |expected|
             && Distribute(env.crypto, v, v.devices[d], e, expected, packages, map[]).Ok?)
      && (done.Ok? ==>
            var expected := Grow(env.crypto, v, e).value.Current() - {d};
            var table := Distribute(env.crypto, v, v.devices[d], e, expected, packages, map[]).value;
            e.index == |v.entries| + 1 && done == CommitRekey(v, v.devices[d], kind, e, table))
  {
    hide Grow, Distribute, TokenFree, RekeyedDevices, D.List.Current;
  }

  lemma CommitLeaves(v: Vault, d: Text, kind: Text, e: Entry, table: map<Text, KeyPackage>, packages: seq<KeyPackage>)
    requires Activated(v, d) && TokenFree(v.devices, v.devices[d]) && e.index == |v.entries| + 1
    requires forall i | i in v.devices :: v.devices[i].deviceId == i
    requires table.Keys == Recipients(packages)
    requires forall i | 0 <= i < |packages| :: table[packages[i].recipient] == packages[i]
    ensures
      var done := CommitRekey(v, v.devices[d], kind, e, table);
      done.Ok? && Rekeyed(v, done.value, d, kind, e, packages)
  {
    hide TokenFree, RekeyedDevices, Recipients;
    RekeyedRows(kind, d, e, v.devices);
  }

  lemma RekeyLeaves(env: Env, v: Vault, d: Text, kind: Text, e: Entry, packages: seq<KeyPackage>)
    requires Activated(v, d) && v.headIndex == |v.entries| && TokenFree(v.devices, v.devices[d])
    requires forall i | i in v.devices :: v.devices[i].deviceId == i
    requires RekeyTx(env, v, ByDevice(v.devices[d]), kind, e, packages).Ok?
    ensures Rekeyed(v, RekeyTx(env, v, ByDevice(v.devices[d]), kind, e, packages).value, d, kind, e, packages)
  {
    hide RekeyTx, Grow, Distribute, TokenFree, CommitRekey, Rekeyed, Recipients, D.List.Current;
    RekeyChecks(env, v, d, kind, e, packages);
    var expected := Grow(env.crypto, v, e).value.Current() - {d};
    DistributeTable(env.crypto, v, v.devices[d], e, expected, packages, map[]);
    CommitLeaves(v, d, kind, e, Distribute(env.crypto, v, v.devices[d], e, expected, packages, map[]).value, packages);
  }

  lemma OwnTokenFree(v: Vault, d: Text)
    requires RolesOk(v.devices, v.pairings) && Activated(v, d)
    ensures TokenFree(v.devices, v.devices[d])
  {
  }

  /** The list takes the entry of a rekey exactly when it is the next one of the next epoch, and leaves the survivors.
      */
  lemma RekeyGrows(c: Crypto, v: Vault, d: Text, kind: Text, e: Entry)
    requires LogOk(c, v.id, v.headIndex, v.epoch, v.entries, v.devices) && Activated(v, d)
    requires e.kind == kind && e.signer == d && (kind == D.REMOVE || kind == D.ROTATE)
    ensures v.entries != []
    ensures Grow(c, v, e).Ok? <==>
            NextEntry(c, v, d, kind, v.epoch + 1, e) && (kind == D.REMOVE ==> D.Holder(v.entries, e.subject).Some?)
    ensures Grow(c, v, e).Ok? ==> Grow(c, v, e).value.Current() - {d} == Survivors(v, d, kind, e)
  {
    hide LogOk, Grow, D.Replay, D.Holder, L.Members, L.WellShaped, L.LogEpoch, L.HasJoined;
    D.KindsDiffer();
    StoredList(c, v, d);
    GrowIff(c, v, d, e);
    if Grow(c, v, e).Ok? {
      L.CurrentAreMembers(c, v.entries + [e]);
      MembersAfter(v.entries, e);
    }
  }

  lemma RekeyIff(env: Env, v: Vault, d: Text, kind: Text, e: Entry, packages: seq<KeyPackage>)
    requires VaultOk(env, v) && Activated(v, d) && (kind == D.REMOVE || kind == D.ROTATE)
    ensures v.entries != []
    ensures RekeyTx(env, v, ByDevice(v.devices[d]), kind, e, packages).Ok? <==>
            MayRekey(env.crypto, v, d, kind, e, packages)
    ensures RekeyTx(env, v, ByDevice(v.devices[d]), kind, e, packages).Ok? ==>
              Rekeyed(v, RekeyTx(env, v, ByDevice(v.devices[d]), kind, e, packages).value, d, kind, e, packages)
  {
    hide VaultOk, LogOk, RolesOk, RekeyTx, Grow, Distribute, TokenFree, OnePackageEach, D.Replay, D.Holder, Survivors,
         D.List.Current, L.WellShaped, Rekeyed, CommitRekey;
    LogOf(env, v);
    OwnTokenFree(v, d);
    RekeyChecks(env, v, d, kind, e, packages);
    if RekeyTx(env, v, ByDevice(v.devices[d]), kind, e, packages).Ok? {
      RekeyLeaves(env, v, d, kind, e, packages);
    }
    if e.signer == d && e.kind == kind {
      RekeyGrows(env.crypto, v, d, kind, e);
      if L.WellShaped(env.crypto, e) && e.vaultId == v.id {
        ServedIff(env.crypto, v, d, e, Survivors(v, d, kind, e), packages);
      }
    }
  }

  // ---------------------------------------------------------------------------------------------
  // Approvals

  /** What an approval by the device needs of the vault: a confirmed pairing in time, with the keys of the entry, room
      for one more member, and a package for it. */
  ghost predicate MayApprove(c: Crypto, v: Vault, d: Text, e: Entry, k: KeyPackage, now: Time)
    requires v.entries != [] && d in v.devices
  {
    && NextEntry(c, v, d, D.ADD, v.epoch, e)
    && e.subject in v.pairings && v.pairings[e.subject].state == Confirmed && now < v.pairings[e.subject].expiresAt
    && e.signingKey == v.pairings[e.subject].signingKey && e.packageKey == v.pairings[e.subject].packageKey
    && |L.Members(v.entries)| < 10
    && k.recipient == e.subject && GoodPackage(c, v, d, e, k)
  }

  /** What an approval leaves: the pairing has become a device that is not yet activated, with its package. */
  predicate Joined(v: Vault, w: Vault, e: Entry, k: KeyPackage) {
    && e.subject in v.pairings
    && w == v.(entries := v.entries + [e], headIndex := e.index,
               devices := v.devices[e.subject := Device(e.subject, v.pairings[e.subject].token, e.signingKey,
                                                        e.packageKey, Approved, e.index, 0)],
               packages := v.packages[e.subject := k], pairings := v.pairings - {e.subject})
  }

  lemma ApproveChecks(env: Env, v: Vault, d: Text, e: Entry, k: KeyPackage, now: Time)
    requires RolesOk(v.devices, v.pairings) && Activated(v, d) && v.headIndex == |v.entries|
    ensures ApproveTx(env, v, ByDevice(v.devices[d]), e, k, now).Ok? <==>
            && e.kind == D.ADD && e.signer == d && e.vaultId == v.id
            && e.subject in v.pairings
            && v.pairings[e.subject].state == Confirmed && now < v.pairings[e.subject].expiresAt
            && v.pairings[e.subject].signingKey == e.signingKey && v.pairings[e.subject].packageKey == e.packageKey
            && e.index == v.headIndex + 1 && Grow(env.crypto, v, e).Ok?
            && k.recipient == e.subject && PackageFits(env.crypto, v, v.devices[d], k, v.epoch, e)
            && PackageSigned(env.crypto, k, v.devices[d].signingKey)
    ensures ApproveTx(env, v, ByDevice(v.devices[d]), e, k, now).Ok? ==>
              Joined(v, ApproveTx(env, v, ByDevice(v.devices[d]), e, k, now).value, e, k)
  {
    hide Grow, PackageFits, PackageSigned;
  }

  /** No pairing is of a device that ever joined. */
  lemma PairingsAreNew(c: Crypto, v: Vault, id: Text)
    requires LogOk(c, v.id, v.headIndex, v.epoch, v.entries, v.devices) && RolesOk(v.devices, v.pairings)
    requires id in v.pairings
    ensures !L.HasJoined(v.entries, id)
  {
    hide D.Replay;
    D.MembersHaveJoined(c, v.entries, id);
    assert id !in v.devices.Keys;
  }

  lemma ApproveIff(env: Env, v: Vault, d: Text, e: Entry, k: KeyPackage, now: Time)
    requires VaultOk(env, v) && Activated(v, d)
    ensures v.entries != []
    ensures ApproveTx(env, v, ByDevice(v.devices[d]), e, k, now).Ok? <==> MayApprove(env.crypto, v, d, e, k, now)
    ensures ApproveTx(env, v, ByDevice(v.devices[d]), e, k, now).Ok? ==>
              Joined(v, ApproveTx(env, v, ByDevice(v.devices[d]), e, k, now).value, e, k)
  {
    hide VaultOk, LogOk, RolesOk, ApproveTx, Grow, PackageFits, PackageSigned, GoodPackage, D.Replay, D.Holder,
         L.Members, L.WellShaped, L.LogEpoch, L.HasJoined;
    var c := env.crypto;
    LogOf(env, v);
    ApproveChecks(env, v, d, e, k, now);
    if e.signer == d && e.kind == D.ADD && e.subject in v.pairings {
      D.KindsDiffer();
      StoredList(c, v, d);
      GrowIff(c, v, d, e);
      PairingsAreNew(c, v, e.subject);
      if L.WellShaped(c, e) && e.vaultId == v.id && e.epochAfter == v.epoch {
        GoodIff(c, v, d, e, k);
      }
    }
  }

  // ---------------------------------------------------------------------------------------------
  // Key upgrades

  /** A key upgrade needs the next entry in the same epoch, by a device that still has the old kind of key. */
  ghost predicate MayUpgrade(c: Crypto, v: Vault, d: Text, e: Entry)
    requires v.entries != [] && d in v.devices
  {
    NextEntry(c, v, d, D.KEY, v.epoch, e) && c.Decodes(v.devices[d].packageKey, 32)
  }

  /** The device's row with the new key, and the entry appended. */
  function Upgraded(v: Vault, d: Text, e: Entry): Vault
    requires d in v.devices
  {
    v.(entries := v.entries + [e], headIndex := e.index,
       devices := v.devices[d := v.devices[d].(packageKey := e.packageKey)])
  }

  lemma UpgradeChecks(env: Env, v: Vault, d: Text, e: Entry)
    requires Activated(v, d) && v.headIndex == |v.entries| && TokenFree(v.devices, v.devices[d])
    ensures UpgradeKeyTx(env, v, ByDevice(v.devices[d]), e).Ok? <==>
            && e.kind == D.KEY && e.signer == d && e.vaultId == v.id && e.index == v.headIndex + 1
            && Grow(env.crypto, v, e).Ok?
    ensures UpgradeKeyTx(env, v, ByDevice(v.devices[d]), e).Ok? ==>
              UpgradeKeyTx(env, v, ByDevice(v.devices[d]), e).value == Upgraded(v, d, e)
  {
    hide Grow;
  }

  lemma UpgradeIff(env: Env, v: Vault, d: Text, e: Entry)
    requires VaultOk(env, v) && Activated(v, d)
    ensures v.entries != []
    ensures UpgradeKeyTx(env, v, ByDevice(v.devices[d]), e).Ok? <==> MayUpgrade(env.crypto, v, d, e)
    ensures UpgradeKeyTx(env, v, ByDevice(v.devices[d]), e).Ok? ==>
              UpgradeKeyTx(env, v, ByDevice(v.devices[d]), e).value == Upgraded(v, d, e)
  {
    hide VaultOk, LogOk, RolesOk, UpgradeKeyTx, Grow, TokenFree, D.Replay, D.Holder, L.Members, L.WellShaped,
         L.LogEpoch, L.HasJoined;
    LogOf(env, v);
    OwnTokenFree(v, d);
    UpgradeChecks(env, v, d, e);
    if e.signer == d && e.kind == D.KEY {
      D.KindsDiffer();
      StoredList(env.crypto, v, d);
      GrowIff(env.crypto, v, d, e);
    }
  }

  // ---------------------------------------------------------------------------------------------
  // The requests

  /** The caller presents the token of an activated device of its vault. */
  ghost predicate Acts(env: Env, events: seq<Event>, caller: Caller, d: Text) {
    && env.Valid() && caller.Known() && caller.owner in Run(env, events).vaults
    && var v := Run(env, events).vaults[caller.owner];
       ServicePromises.Speaks(v, caller, d) && v.devices[d].activatedEpoch == v.epoch
  }

  lemma ActingVault(env: Env, events: seq<Event>, caller: Caller, d: Text)
    requires Acts(env, events, caller, d)
    ensures
      var v := Run(env, events).vaults[caller.owner];
      StateOk(env, Run(env, events)) && VaultOk(env, v) && Activated(v, d) && v.entries != []
  {
    hide Run, VaultOk, ActorFor;
    EveryReachableStateOk(env, events);
    var v := Run(env, events).vaults[caller.owner];
    ServicePromises.TokenFindsDevice(env, v, caller, d, 0);
    LogOf(env, v);
  }

  /** In every reachable state a removal by an activated device is accepted if and only if the request is signed with an
      unused nonce, the entry is the next one, of the next epoch and signed by the device, its subject is a member by
      the log, and there is one good package for each other member. The entry is then appended. */
  lemma AcceptedRemovalIff(env: Env, events: seq<Event>, caller: Caller, d: Text, q: SignedRequest, e: Entry,
                           packages: seq<KeyPackage>, clock: Clock)
    requires Acts(env, events, caller, d)
    ensures
      var st := Run(env, events);
      var v := st.vaults[caller.owner];
      var out := Submit(env, st, caller, q, Remove(e, packages), clock);
      && v.entries != []
      && (out.answer.Ok? <==>
          && ServicePromises.SignedAndUnused(env, st, v, d, caller, q, clock)
          && MayRekey(env.crypto, v, d, D.REMOVE, e, packages))
      && (out.answer.Ok? ==>
            && caller.owner in out.state.vaults
            && out.state.vaults == st.vaults[caller.owner := out.state.vaults[caller.owner]]
            && Rekeyed(v, out.state.vaults[caller.owner], d, D.REMOVE, e, packages))
  {
    hide Run, RekeyTx, MayRekey, Rekeyed, VaultOk, Submit, ActorFor, ServicePromises.SignedAndUnused;
    var st := Run(env, events);
    ActingVault(env, events, caller, d);
    ServicePromises.DeviceRequestIff(env, st, caller, d, q, Remove(e, packages), clock);
    RekeyIff(env, st.vaults[caller.owner], d, D.REMOVE, e, packages);
  }

  /** So is a rotation, without a subject. */
  lemma AcceptedRotationIff(env: Env, events: seq<Event>, caller: Caller, d: Text, q: SignedRequest, e: Entry,
                            packages: seq<KeyPackage>, clock: Clock)
    requires Acts(env, events, caller, d)
    ensures
      var st := Run(env, events);
      var v := st.vaults[caller.owner];
      var out := Submit(env, st, caller, q, Rotate(e, packages), clock);
      && v.entries != []
      && (out.answer.Ok? <==>
          && ServicePromises.SignedAndUnused(env, st, v, d, caller, q, clock)
          && MayRekey(env.crypto, v, d, D.ROTATE, e, packages))
      && (out.answer.Ok? ==>
            && caller.owner in out.state.vaults
            && out.state.vaults == st.vaults[caller.owner := out.state.vaults[caller.owner]]
            && Rekeyed(v, out.state.vaults[caller.owner], d, D.ROTATE, e, packages))
  {
    hide Run, RekeyTx, MayRekey, Rekeyed, VaultOk, Submit, ActorFor, ServicePromises.SignedAndUnused;
    var st := Run(env, events);
    ActingVault(env, events, caller, d);
    ServicePromises.DeviceRequestIff(env, st, caller, d, q, Rotate(e, packages), clock);
    RekeyIff(env, st.vaults[caller.owner], d, D.ROTATE, e, packages);
  }

  /** An approval is accepted if and only if the request is signed with an unused nonce and the vault has a confirmed,
      unexpired pairing with the entry's keys, room for a member, and a good package for it. */
  lemma AcceptedApprovalIff(env: Env, events: seq<Event>, caller: Caller, d: Text, q: SignedRequest, e: Entry,
                            k: KeyPackage, clock: Clock)
    requires Acts(env, events, caller, d)
    ensures
      var st := Run(env, events);
      var v := st.vaults[caller.owner];
      var out := Submit(env, st, caller, q, Approve(e, k), clock);
      && v.entries != []
      && (out.answer.Ok? <==>
          && ServicePromises.SignedAndUnused(env, st, v, d, caller, q, clock)
          && MayApprove(env.crypto, v, d, e, k, clock.act))
      && (out.answer.Ok? ==>
            && caller.owner in out.state.vaults
            && out.state.vaults == st.vaults[caller.owner := out.state.vaults[caller.owner]]
            && Joined(v, out.state.vaults[caller.owner], e, k))
  {
    hide Run, ApproveTx, MayApprove, Joined, VaultOk, Submit, ActorFor, ServicePromises.SignedAndUnused;
    var st := Run(env, events);
    ActingVault(env, events, caller, d);
    ServicePromises.DeviceRequestIff(env, st, caller, d, q, Approve(e, k), clock);
    ApproveIff(env, st.vaults[caller.owner], d, e, k, clock.act);
  }

  /** A key upgrade is accepted if and only if the request is signed with an unused nonce and the device, with a key of
      the old kind, signed the next entry in the same epoch. */
  lemma AcceptedUpgradeIff(env: Env, events: seq<Event>, caller: Caller, d: Text, q: SignedRequest, e: Entry,
                           clock: Clock)
    requires Acts(env, events, caller, d)
    ensures
      var st := Run(env, events);
      var v := st.vaults[caller.owner];
      var out := Submit(env, st, caller, q, UpgradeKey(e), clock);
      && v.entries != []
      && (out.answer.Ok? <==>
          && ServicePromises.SignedAndUnused(env, st, v, d, caller, q, clock)
          && MayUpgrade(env.crypto, v, d, e))
      && (out.answer.Ok? ==>
            out.state.vaults == st.vaults[caller.owner := Upgraded(v, d, e)])
  {
    hide Run, UpgradeKeyTx, MayUpgrade, Upgraded, VaultOk, Submit, ActorFor, ServicePromises.SignedAndUnused;
    var st := Run(env, events);
    ActingVault(env, events, caller, d);
    ServicePromises.DeviceRequestIff(env, st, caller, d, q, UpgradeKey(e), clock);
    UpgradeIff(env, st.vaults[caller.owner], d, e);
  }
}
