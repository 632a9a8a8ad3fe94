/** What clients of the service can rely on in every reachable state. */
module ServicePromises {
  import opened Basics
  import opened Records
  import opened Tables
  import opened Operations
  import opened Retention
  import opened VaultInvariant
  import opened ServiceRuns
  import opened RequestSignatures
  import D = DeviceLog
  import H = Headers

  // ---------------------------------------------------------------------------------------------
  // Devices

  /** The device table says exactly what the signed log says: the rows are the devices the log ever created or added,
      and a row is approved if and only if the log's own reading makes the device a member, with the same keys and
      join index. */
  lemma DeviceTableIsTheLog(env: Env, events: seq<Event>, owner: Text, d: Text)
    requires env.Valid() && owner in Run(env, events).vaults
    ensures
      var v := Run(env, events).vaults[owner];
      var holder := D.Holder(v.entries, d);
      && (d in v.devices && v.devices[d].state == Approved <==> holder.Some?)
      && (holder.Some? ==>
            && v.devices[d].signingKey == holder.value.signingKey
            && v.devices[d].packageKey == holder.value.packageKey
            && v.devices[d].addedIndex == holder.value.addedIndex)
      && (d in v.devices <==> exists k :: 0 <= k < |v.entries| && D.Joins(v.entries[k], d))
      && v.epoch == 1 + D.RekeyCount(v.entries)
      && v.headIndex == |v.entries|
  {
    hide Run, RolesOk, NoneLockedOut, PackagesOk, HistoryOk, CheckpointsOk, D.Replay, D.Holder, D.RekeyCount;
    EveryReachableStateOk(env, events);
    var v := Run(env, events).vaults[owner];
    assert VaultOk(env, v);
    D.CurrentIsHolder(env.crypto, v.entries, d);
    D.MembersHaveJoined(env.crypto, v.entries, d);
    D.EpochCountsRekeys(env.crypto, v.entries);
    D.ReplayWellFormed(env.crypto, v.entries);
  }

  /** A token names at most one pairing or one live device, never both; no id is both; at most three pairings wait. */
  lemma OneLiveRole(env: Env, events: seq<Event>, owner: Text, i: Text, j: Text)
    requires env.Valid() && owner in Run(env, events).vaults
    ensures
      var v := Run(env, events).vaults[owner];
      && |v.pairings| <= 3
      && !(i in v.pairings && i in v.devices)
      && (i in v.pairings && j in v.pairings && v.pairings[i].token == v.pairings[j].token ==> i == j)
      && (i in v.devices && Live(v.devices[i]) && j in v.devices && Live(v.devices[j]) && i != j ==>
            v.devices[i].token != v.devices[j].token)
      && (i in v.pairings && j in v.devices && v.pairings[i].token == v.devices[j].token ==>
          v.devices[j].state == Revoked)
  {
    hide Run, LogOk, NoneLockedOut, PackagesOk, HistoryOk, CheckpointsOk;
    EveryReachableStateOk(env, events);
    assert VaultOk(env, Run(env, events).vaults[owner]);
  }

  // ---------------------------------------------------------------------------------------------
  // Callers

  /** The caller's token is that of an approved row. */
  predicate Speaks(v: Vault, caller: Caller, d: Text) {
    d in v.devices && v.devices[d].state == Approved && caller.token == v.devices[d].token
  }

  lemma DeviceRoles(env: Env, v: Vault)
    requires VaultOk(env, v)
    ensures LiveTokensDiffer(v.devices) && forall i | i in v.devices :: v.devices[i].deviceId == i
  {
    hide LogOk, NoneLockedOut, PackagesOk, HistoryOk, CheckpointsOk, LiveTokensDiffer;
  }

  /** Whoever presents the token of an approved row is taken for that device. */
  lemma TokenFindsDevice(env: Env, v: Vault, caller: Caller, d: Text, now: Time)
    requires VaultOk(env, v) && Speaks(v, caller, d)
    ensures ActorFor(v, caller, now) == Ok(ByDevice(v.devices[d])) && v.devices[d].deviceId == d
  {
    hide VaultOk;
    DeviceRoles(env, v);
    BestExists(v.devices, caller.token, {d}, d);
  }

  /** The request is signed with the row's key over its own six fields, at most five minutes off, and its nonce is not
      in use. */
  predicate SignedAndUnused(env: Env, st: State, v: Vault, d: Text, caller: Caller, q: SignedRequest, clock: Clock)
    requires d in v.devices
  {
    && ProperlySigned(env.crypto, v.devices[d].signingKey, caller, q, Unix(clock.skew))
    && Unused(st.nonces, v.id + SLASH + d, q, clock)
  }

  /** A request on the vault by an approved device, known by its token, is accepted if and only if it is signed with the
      row's key, its nonce is unused, and the operation accepts that device. */
  lemma DeviceRequestIff(env: Env, st: State, caller: Caller, d: Text, q: SignedRequest, op: Op, clock: Clock)
    requires caller.Known() && caller.owner in st.vaults && StateOk(env, st)
             && Speaks(st.vaults[caller.owner], caller, d)
    requires !op.CreateVault? && !op.BeginPairing? && !op.Reset?
    ensures
      var v := st.vaults[caller.owner];
      var done := VaultTx(env, v, ByDevice(v.devices[d]), op, clock.act);
      var out := Submit(env, st, caller, q, op, clock);
      && (out.answer.Ok? <==> SignedAndUnused(env, st, v, d, caller, q, clock) && done.Ok?)
      && (out.answer.Ok? ==> out.state.vaults == st.vaults[caller.owner := done.value])
  {
    hide VaultOk, VaultTx, ActorFor, RequestSigned, ProperlySigned;
    var v := st.vaults[caller.owner];
    TokenFindsDevice(env, v, caller, d, clock.lookup);
    SignedIsProper(env.crypto, v.devices[d].signingKey, caller, q, Unix(clock.skew));
  }

  // ---------------------------------------------------------------------------------------------
  // Headers

  /** The retained headers in order of revision. */
  ghost function RetainedChain(v: Vault, from: nat): seq<Header>
    requires forall r: nat | from < r <= v.currentRevision :: r in v.headers
    requires from <= v.currentRevision
  {
    seq(v.currentRevision - from, i requires 0 <= i < v.currentRevision - from => v.headers[from + 1 + i].header)
  }

  /** The stored headers are exactly the last ones, as many as are retained, and a client that replays
      them against the current device list accepts them. */
  lemma RetainedHeadersVerify(env: Env, events: seq<Event>, owner: Text)
    requires env.Valid() && owner in Run(env, events).vaults
    ensures
      var v := Run(env, events).vaults[owner];
      var from := if v.currentRevision > env.headerRetention then v.currentRevision - env.headerRetention else 0;
      && (forall r: U64 :: r in v.headers <==> from < r <= v.currentRevision)
      && D.Replay(env.crypto, v.entries).Ok?
      && H.VerifyHeaderChain(env.crypto, D.Replay(env.crypto, v.entries).value, None, RetainedChain(v, from)).Ok?
  {
    hide Run, LogOk, RolesOk, NoneLockedOut, PackagesOk, CheckpointsOk, D.Replay, H.VerifyHeaderChain, BodiesOk;
    EveryReachableStateOk(env, events);
    var v := Run(env, events).vaults[owner];
    assert VaultOk(env, v);
    var l := D.Replay(env.crypto, v.entries).value;
    var history :| HistoryIs(env, v.currentRevision, l, v.headers, v.ciphertexts, history);
    var from := if v.currentRevision > env.headerRetention then v.currentRevision - env.headerRetention else 0;
    forall r: U64
      ensures r in v.headers <==> from < r <= v.currentRevision
    {
      assert r in v.headers <==> Retained(r, |history|, env.headerRetention);
    }
    H.ChainSuffix(env.crypto, l, None, history, from);
    RetainedIsSuffix(env, v, history, from);
  }

  lemma RetainedIsSuffix(env: Env, v: Vault, history: seq<Header>, from: nat)
    requires from <= v.currentRevision == |history|
    requires forall r: U64 :: r in v.headers <==> from < r <= v.currentRevision
    requires forall r | r in v.headers :: HeaderRowOk(env.crypto, history, r, v.headers[r])
    ensures RetainedChain(v, from) == history[from..]
  {
    var chain := RetainedChain(v, from);
    forall i | 0 <= i < |chain|
      ensures chain[i] == history[from..][i]
    {
      assert HeaderRowOk(env.crypto, history, from + 1 + i, v.headers[from + 1 + i]);
    }
  }

  // ---------------------------------------------------------------------------------------------
  // Snapshots

  /** The read that hands a device the latest snapshot. */
  ghost function Snapshot(st: State, caller: Caller, now: Time): Result<(StoredHeader, seq<Byte>), Error> {
    var known :- Need(caller.Known(), Forbidden);
    var found :- Need(caller.owner in st.vaults, NoVault);
    var v := st.vaults[caller.owner];
    var actor :- ActorFor(v, caller, now);
    var d :- RequireApproved(actor);
    var some :- Need(v.currentRevision != 0, NotFound);
    var header :- Need(v.currentRevision in v.headers, NotFound);
    var body :- Need(v.currentRevision in v.ciphertexts, NotFound);
    Ok((v.headers[v.currentRevision], v.ciphertexts[v.currentRevision]))
  }

  /** An approved device, known by its token, always gets the latest snapshot once there is one, and it verifies: the
      header against the device list, the body against the header. */
  lemma SnapshotIsServed(env: Env, events: seq<Event>, caller: Caller, d: Text, now: Time)
    requires env.Valid() && caller.Known() && caller.owner in Run(env, events).vaults
    requires Speaks(Run(env, events).vaults[caller.owner], caller, d)
    requires Run(env, events).vaults[caller.owner].currentRevision > 0
    ensures
      var st := Run(env, events);
      var v := st.vaults[caller.owner];
      var got := Snapshot(st, caller, now);
      && got.Ok?
      && got.value.0.header.revision == v.currentRevision
      && D.Replay(env.crypto, v.entries).Ok?
      && H.VerifyHeader(env.crypto, D.Replay(env.crypto, v.entries).value, None, got.value.0.header).Ok?
      && H.CiphertextMatches(env.crypto, got.value.0.header, got.value.1)
  {
    hide Run, VaultOk, D.Replay, ActorFor, H.CiphertextMatches, H.VerifyHeader;
    EveryReachableStateOk(env, events);
    var v := Run(env, events).vaults[caller.owner];
    assert VaultOk(env, v);
    TokenFindsDevice(env, v, caller, d, now);
    LatestIsStored(env, v);
  }

  /** The latest header and body are both there and verify. */
  lemma LatestIsStored(env: Env, v: Vault)
    requires env.Valid() && VaultOk(env, v)
    requires v.currentRevision > 0
    ensures v.currentRevision in v.headers && v.currentRevision in v.ciphertexts
    ensures D.Replay(env.crypto, v.entries).Ok?
    ensures
      var h := v.headers[v.currentRevision].header;
      && h.revision == v.currentRevision
      && H.VerifyHeader(env.crypto, D.Replay(env.crypto, v.entries).value, None, h).Ok?
      && H.CiphertextMatches(env.crypto, h, v.ciphertexts[v.currentRevision])
  {
    hide LogOk, RolesOk, NoneLockedOut, PackagesOk, CheckpointsOk, D.Replay, H.CiphertextMatches, H.VerifyHeader,
         H.VerifyHeaderChain, Total;
    var l := D.Replay(env.crypto, v.entries).value;
    var history :| HistoryIs(env, v.currentRevision, l, v.headers, v.ciphertexts, history);
    var r := v.currentRevision;
    assert Retained(r, |history|, env.headerRetention);
    assert HeaderRowOk(env.crypto, history, r, v.headers[r]);
    assert BodyOk(env.crypto, history, r, v.ciphertexts[r]);
    H.ChainAt(env.crypto, l, None, history, r - 1);
    H.HeaderAlone(env.crypto, l, if r == 1 then None else Some(history[r - 2]), history[r - 1]);
  }

  /** A chain of headers, one per revision, that verifies and that the stored headers are part of. */
  ghost predicate FullHistory(env: Env, v: Vault, history: seq<Header>) {
    && |history| == v.currentRevision
    && D.Replay(env.crypto, v.entries).Ok?
    && H.VerifyHeaderChain(env.crypto, D.Replay(env.crypto, v.entries).value, None, history).Ok?
    && (forall k | 0 <= k < |history| :: history[k].revision == k + 1)
    && (forall r | r in v.headers :: 1 <= r <= |history| && v.headers[r].header == history[r - 1])
  }

  /** Body r is the one that header r of the history signed, under the epoch of the last header. */
  ghost predicate BodyOf(env: Env, history: seq<Header>, r: nat, body: seq<Byte>) {
    && 1 <= r <= |history|
    && H.CiphertextMatches(env.crypto, history[r - 1], body)
    && history[r - 1].epoch == history[|history| - 1].epoch
  }

  /** The stored bodies are an unbroken run of revisions up to the current one, within the byte budget together; each is
      the one its header signed, whether or not that header is still stored, and all are of the latest epoch. */
  lemma StoredBodies(env: Env, events: seq<Event>, owner: Text) returns (history: seq<Header>)
    requires env.Valid() && owner in Run(env, events).vaults
    ensures
      var v := Run(env, events).vaults[owner];
      && FullHistory(env, v, history)
      && (forall r | r in v.ciphertexts :: BodyOf(env, history, r, v.ciphertexts[r]))
      && (forall r: U64, s: U64 | r in v.ciphertexts && r <= s <= v.currentRevision :: s in v.ciphertexts)
      && (v.currentRevision > 0 ==> v.currentRevision in v.ciphertexts)
      && Total(v.ciphertexts) <= env.byteBudget
  {
    hide Run, LogOk, RolesOk, NoneLockedOut, PackagesOk, CheckpointsOk, D.Replay, H.CiphertextMatches,
         H.VerifyHeaderChain, Total;
    EveryReachableStateOk(env, events);
    var v := Run(env, events).vaults[owner];
    assert VaultOk(env, v);
    var l := D.Replay(env.crypto, v.entries).value;
    history :| HistoryIs(env, v.currentRevision, l, v.headers, v.ciphertexts, history);
    forall r | r in v.headers
      ensures 1 <= r <= |history| && v.headers[r].header == history[r - 1]
    {
      assert HeaderRowOk(env.crypto, history, r, v.headers[r]);
    }
    forall r | r in v.ciphertexts
      ensures BodyOf(env, history, r, v.ciphertexts[r])
    {
      assert BodyOk(env.crypto, history, r, v.ciphertexts[r]);
    }
  }

  // ---------------------------------------------------------------------------------------------
  // Activation

  /** An approved device that is not activated finds a package for the current epoch, signed by a device of the
      vault. */
  lemma PackageWaits(env: Env, events: seq<Event>, owner: Text, d: Text)
    requires env.Valid() && owner in Run(env, events).vaults
    requires
      var v := Run(env, events).vaults[owner];
      d in v.devices && v.devices[d].state == Approved && v.devices[d].activatedEpoch != v.epoch
    ensures
      var v := Run(env, events).vaults[owner];
      && d in v.packages && v.packages[d].recipient == d && v.packages[d].epoch == v.epoch
      && v.packages[d].sender in v.devices
      && PackageSigned(env.crypto, v.packages[d], v.devices[v.packages[d].sender].signingKey)
      && ActivateTx(env, v, ByDevice(v.devices[d]), env.crypto.digest(PackageDigest(v.packages[d]))) ==
         Ok(v.(devices := v.devices[d := v.devices[d].(activatedEpoch := v.epoch)]))
  {
    hide Run, LogOk, HistoryOk, CheckpointsOk, PackageSigned;
    EveryReachableStateOk(env, events);
    var v := Run(env, events).vaults[owner];
    assert VaultOk(env, v);
    assert HasKey(v.epoch, v.devices[d], v.packages);
    assert PackageOk(env.crypto, v.id, v.devices, d, v.packages[d]);
  }

  /** Such a device, known by its token, is activated by a signed request with that package's digest and an unused
      nonce; with any other signature or a used nonce it is not. */
  lemma ActivationIsOpen(env: Env, events: seq<Event>, caller: Caller, d: Text, q: SignedRequest, clock: Clock)
    requires env.Valid() && caller.Known() && caller.owner in Run(env, events).vaults
    requires
      var v := Run(env, events).vaults[caller.owner];
      Speaks(v, caller, d) && v.devices[d].activatedEpoch != v.epoch
    ensures
      var st := Run(env, events);
      var v := st.vaults[caller.owner];
      d in v.packages &&
      var out := Submit(env, st, caller, q, Activate(env.crypto.digest(PackageDigest(v.packages[d]))), clock);
      && (out.answer.Ok? <==> SignedAndUnused(env, st, v, d, caller, q, clock))
      && (out.answer.Ok? ==>
            out.state.vaults == st.vaults[caller.owner :=
                                          v.(devices := v.devices[d := v.devices[d].(activatedEpoch := v.epoch)])])
  {
    hide Run, VaultOk, ActorFor, Submit, SignedAndUnused, ActivateTx, PackageSigned, RolesOk;
    var st := Run(env, events);
    var v := st.vaults[caller.owner];
    PackageWaits(env, events, caller.owner, d);
    EveryReachableStateOk(env, events);
    DeviceRequestIff(env, st, caller, d, q, Activate(env.crypto.digest(PackageDigest(v.packages[d]))), clock);
  }
}
