/** Which uploads are accepted, read off the stored tables alone: no replay, no chain, no eviction. */
module UploadAcceptance {
  import opened Basics
  import opened Records
  import opened Tables
  import opened Operations
  import opened Retention
  import opened VaultInvariant
  import opened ServiceRuns
  import UploadStep
  import ServicePromises
  import D = DeviceLog
  import H = Headers
  import HeaderAcceptance

  /** The header names the vault, the device, the next revision and the head of the list. */
  predicate AtHead(c: Crypto, v: Vault, d: Text, h: Header)
    requires v.entries != []
  {
    && HeaderAcceptance.HeaderShaped(c, h)
    && h.vaultId == v.id && h.deviceId == d
    && h.revision == v.currentRevision + 1
    && h.epoch == v.epoch && h.listIndex == v.headIndex
    && h.listDigest == c.DigestOfEntry(v.entries[|v.entries| - 1])
  }

  /** The header names the digest of the latest stored header, if there is one. */
  predicate LinksToLatest(c: Crypto, v: Vault, h: Header) {
    v.currentRevision > 0 ==>
      var latest := v.currentRevision;
      latest in v.headers && h.previousDigest == c.DigestOfHeader(v.headers[latest].header)
  }

  predicate SignedBy(c: Crypto, d: Device, h: Header) {
    c.SignatureHolds(d.signingKey, HeaderSigning(h), h.signature)
  }

  lemma {:induction false} RekeyCountGrows(entries: seq<Entry>, k: nat)
    requires k <= |entries|
    ensures D.RekeyCount(entries[..k]) <= D.RekeyCount(entries)
    decreases |entries|
  {
    if k == |entries| {
      assert entries[..k] == entries;
    } else {
      RekeyCountGrows(entries[..|entries| - 1], k);
      assert entries[..|entries| - 1][..k] == entries[..k];
    }
  }

  /** At the head the list answers as the tables do: digest, epoch and the keys of approved rows. */
  lemma HeadOfList(c: Crypto, v: Vault, d: Text)
    requires LogOk(c, v.id, v.headIndex, v.epoch, v.entries, v.devices)
    requires d in v.devices && v.devices[d].state == Approved
    ensures
      var l := D.Replay(c, v.entries).value;
      && D.Replay(c, v.entries).Ok? && l.vaultId == v.id && l.Head() == v.headIndex == |v.entries|
      && l.DigestAt(v.headIndex) == Some(c.DigestOfEntry(v.entries[|v.entries| - 1]))
      && l.EpochAt(v.headIndex) == Some(v.epoch)
      && l.MemberAt(d, v.headIndex).Some? && l.MemberAt(d, v.headIndex).value.signingKey == v.devices[d].signingKey
  {
    hide D.Replay, D.RekeyCount;
    var l := D.Replay(c, v.entries).value;
    assert v.entries[..v.headIndex] == v.entries;
    D.EpochAtIsPrefixReplay(c, v.entries, v.headIndex);
    D.EpochCountsRekeys(c, v.entries);
    D.ReplayWellFormed(c, v.entries);
    assert RowMatches(v.devices[d], l.members[d]);
    D.StandingAtHead(l, d);
    H.SigningKeyOfStanding(l, d, v.headIndex);
  }

  /** A header at the head of the list verifies exactly when it links to the one before and the device signed it. */
  lemma VerifiesAtHead(c: Crypto, v: Vault, d: Text, h: Header, previous: Option<Header>)
    requires LogOk(c, v.id, v.headIndex, v.epoch, v.entries, v.devices)
    requires d in v.devices && v.devices[d].state == Approved
    requires h.vaultId == v.id && h.deviceId == d && h.epoch == v.epoch && h.listIndex == v.headIndex
    requires CheckedNext(v.currentRevision) == Some(h.revision)
    requires previous.Some? ==>
               && previous.value.revision == v.currentRevision
               && H.VerifyHeader(c, D.Replay(c, v.entries).value, None, previous.value).Ok?
    ensures H.VerifyHeader(c, D.Replay(c, v.entries).value, previous, h).Ok? <==>
            && AtHead(c, v, d, h) && SignedBy(c, v.devices[d], h)
            && (previous.Some? ==> h.previousDigest == c.DigestOfHeader(previous.value))
  {
    HeadOfList(c, v, d);
    HeaderAcceptance.ValidIsShaped(c, h);
    if previous.Some? {
      H.HeaderSignerWasMember(c, v.entries, None, previous.value);
      RekeyCountGrows(v.entries, previous.value.listIndex);
      D.EpochCountsRekeys(c, v.entries);
    }
    hide D.Replay, D.RekeyCount, H.ValidHeader, HeaderAcceptance.HeaderShaped;
  }

  /** The header before an upload is the one stored under the current revision. */
  lemma LatestRow(env: Env, v: Vault, h: Header)
    requires env.Valid() && HistoryOk(env, v.currentRevision, v.entries, v.headers, v.ciphertexts)
    ensures v.currentRevision > 0 ==> v.currentRevision in v.headers
    ensures PreviousHeader(v, h).Ok? <==> LinksToLatest(env.crypto, v, h)
    ensures PreviousHeader(v, h).Ok? ==>
              PreviousHeader(v, h).value == if v.currentRevision == 0 then None
                  else Some(v.headers[v.currentRevision].header)
    ensures forall r | r in v.headers :: r <= v.currentRevision
  {
    hide D.Replay, ChainOk, BodiesOk;
    var history :| HistoryIs(env, v.currentRevision, D.Replay(env.crypto, v.entries).value, v.headers, v.ciphertexts,
                             history);
    forall s | s in v.headers
      ensures s <= v.currentRevision
    {
      assert Retained(s, |history|, env.headerRetention);
    }
    if v.currentRevision > 0 {
      assert Retained(v.currentRevision, |history|, env.headerRetention);
      assert HeaderRowOk(env.crypto, history, v.currentRevision, v.headers[v.currentRevision]);
      assert LatestHeader(v) == Some(v.headers[v.currentRevision]);
    }
  }

  /** The checks of an upload by an activated device, one after the other. */
  ghost predicate PassesChecks(env: Env, v: Vault, d: Text, h: Header, body: seq<Byte>) {
    && H.ValidHeader(env.crypto, h) && h.vaultId == v.id && h.deviceId == d
    && CheckedNext(v.currentRevision) == Some(h.revision) && h.epoch == v.epoch && h.listIndex == v.headIndex
    && H.CiphertextMatches(env.crypto, h, body)
    && D.Replay(env.crypto, v.entries).Ok? && PreviousHeader(v, h).Ok?
    && H.VerifyHeader(env.crypto, D.Replay(env.crypto, v.entries).value, PreviousHeader(v, h).value, h).Ok?
    && MakeRoom(v.ciphertexts, v.currentRevision, |body|, env.byteBudget).Ok?
    && h.revision !in v.headers
  }

  lemma ChecksDecide(env: Env, v: Vault, d: Device, h: Header, body: seq<Byte>)
    requires d.state == Approved && d.activatedEpoch == v.epoch
    ensures UploadTx(env, v, ByDevice(d), h, body).Ok? <==> PassesChecks(env, v, d.deviceId, h, body)
  {
    hide H.VerifyHeader, H.ValidHeader, H.CiphertextMatches, MakeRoom, PreviousHeader, D.Replay, CheckedNext, From,
         PruneHeaders;
  }

  lemma VaultParts(env: Env, v: Vault)
    requires VaultOk(env, v)
    ensures LogOk(env.crypto, v.id, v.headIndex, v.epoch, v.entries, v.devices) && v.entries != []
    ensures HistoryOk(env, v.currentRevision, v.entries, v.headers, v.ciphertexts)
  {
    hide HistoryOk, RolesOk, NoneLockedOut, PackagesOk, CheckpointsOk, D.Replay;
  }

  lemma VaultAcceptsIff(env: Env, v: Vault, d: Text, h: Header, body: seq<Byte>)
    requires env.Valid() && VaultOk(env, v)
    requires d in v.devices && v.devices[d].state == Approved && v.devices[d].activatedEpoch == v.epoch
             && v.devices[d].deviceId == d
    ensures UploadTx(env, v, ByDevice(v.devices[d]), h, body).Ok? <==>
            && v.entries != [] && AtHead(env.crypto, v, d, h) && LinksToLatest(env.crypto, v, h)
            && SignedBy(env.crypto, v.devices[d], h) && HeaderAcceptance.Describes(env.crypto, h, body)
            && Unevictable(v.ciphertexts, v.currentRevision) + |body| <= env.byteBudget
  {
    hide VaultOk, LogOk, HistoryOk, UploadTx, H.VerifyHeader, H.ValidHeader, H.CiphertextMatches, MakeRoom,
         PreviousHeader, D.Replay, Unevictable, SignedBy, HeaderAcceptance.HeaderShaped, HeaderAcceptance.Describes;
    VaultParts(env, v);
    HeaderAcceptance.ValidIsShaped(env.crypto, h);
    HeaderAcceptance.MatchesIsDescribed(env.crypto, h, body);
    ChecksDecide(env, v, v.devices[d], h, body);
    LatestRow(env, v, h);
    HeadOfList(env.crypto, v, d);
    UploadStep.UploadQuota(env, v, h, body);
    if v.currentRevision > 0 {
      ServicePromises.LatestIsStored(env, v);
    }
    if h.vaultId == v.id && h.deviceId == d && h.epoch == v.epoch && h.listIndex == v.headIndex
      && CheckedNext(v.currentRevision) == Some(h.revision) {
      VerifiesAtHead(env.crypto, v, d, h, if v.currentRevision == 0 then None
                     else Some(v.headers[v.currentRevision].header));
    }
  }

  // ---------------------------------------------------------------------------------------------
  // What an upload leaves

  /** The new header and body are stored under the new revision. Of the headers the last ones stay, as many as are
      retained; of the bodies the longest run that fits beside the new one, or none if the epoch has risen since. */
  ghost predicate Uploaded(env: Env, v: Vault, w: Vault, h: Header, body: seq<Byte>) {
    && w == v.(currentRevision := h.revision, headers := w.headers, ciphertexts := w.ciphertexts)
    && h.revision in w.headers && w.headers[h.revision] == StoredHeader(h, env.crypto.DigestOfHeader(h))
    && (forall r | r in w.headers && r != h.revision :: r in v.headers && w.headers[r] == v.headers[r])
    && (forall r | r in v.headers && h.revision < r + env.headerRetention :: r in w.headers)
    && h.revision in w.ciphertexts && w.ciphertexts[h.revision] == body
    && var older := w.ciphertexts - {h.revision};
       if EpochRose(v, h) then older == map[]
       else exists low: nat :: IsSuffix(v.ciphertexts, older, low, |body|, env.byteBudget)
  }

  predicate EpochRose(v: Vault, h: Header) {
    v.currentRevision in v.headers && v.currentRevision > 0 && v.headers[v.currentRevision].header.epoch < h.epoch
  }

  lemma BodiesRun(env: Env, v: Vault)
    requires HistoryOk(env, v.currentRevision, v.entries, v.headers, v.ciphertexts)
    ensures RunEndsAt(v.ciphertexts, v.currentRevision)
  {
    hide D.Replay, ChainOk, HeadersOk, Total, RunEndsAt;
  }

  /** The three columns an upload writes. */
  lemma UploadColumns(env: Env, v: Vault, d: Device, h: Header, body: seq<Byte>)
    requires d.state == Approved && d.activatedEpoch == v.epoch
    requires UploadTx(env, v, ByDevice(d), h, body).Ok?
    ensures
      var w := UploadTx(env, v, ByDevice(d), h, body).value;
      var headers := v.headers[h.revision := StoredHeader(h, env.crypto.DigestOfHeader(h))];
      && MakeRoom(v.ciphertexts, v.currentRevision, |body|, env.byteBudget).Ok? && PreviousHeader(v, h).Ok?
      && h.revision == v.currentRevision + 1
      && var bodies := MakeRoom(v.ciphertexts, v.currentRevision, |body|, env.byteBudget).value[h.revision := body];
         var previous := PreviousHeader(v, h).value;
         && w == v.(currentRevision := h.revision, headers := w.headers, ciphertexts := w.ciphertexts)
         && w.ciphertexts ==
            (if previous.Some? && previous.value.epoch < h.epoch then From(bodies, h.revision) else bodies)
         && w.headers == (if h.revision > env.headerRetention
                          then PruneHeaders(headers, h.revision - env.headerRetention + 1) else headers)
  {
    hide H.VerifyHeader, H.ValidHeader, H.CiphertextMatches, MakeRoom, PreviousHeader, D.Replay, From, PruneHeaders;
  }

  lemma UploadLeaves(env: Env, v: Vault, d: Text, h: Header, body: seq<Byte>)
    requires env.Valid() && VaultOk(env, v)
    requires d in v.devices && v.devices[d].state == Approved && v.devices[d].activatedEpoch == v.epoch
    requires UploadTx(env, v, ByDevice(v.devices[d]), h, body).Ok?
    ensures Uploaded(env, v, UploadTx(env, v, ByDevice(v.devices[d]), h, body).value, h, body)
  {
    hide VaultOk, LogOk, HistoryOk, UploadTx, PreviousHeader, D.Replay, Evict, Total, RunEndsAt, IsSuffix;
    VaultParts(env, v);
    BodiesRun(env, v);
    LatestRow(env, v, h);
    UploadColumns(env, v, v.devices[d], h, body);
    EvictKeepsSuffix(v.ciphertexts, v.currentRevision, |body|, env.byteBudget);
    var kept := MakeRoom(v.ciphertexts, v.currentRevision, |body|, env.byteBudget).value;
    KeptIsOlder(kept, v.currentRevision, h.revision, body);
  }

  lemma KeptIsOlder(kept: Bodies, current: U64, revision: U64, body: seq<Byte>)
    requires RunEndsAt(kept, current) && revision == current + 1
    ensures kept[revision := body] - {revision} == kept
    ensures From(kept[revision := body], revision) == map[revision := body]
  {
  }

  /** In every reachable state an upload by an activated device, known by its token, is accepted if and only if the
      request is signed with an unused nonce, the header continues the stored tables and the device signed it, the body
      matches it, and there is room beside the current body. */
  lemma AcceptedUploadIff(
    env: Env, events: seq<Event>, caller: Caller, d: Text, q: SignedRequest, h: Header, body: seq<Byte>, clock: Clock)
    requires env.Valid() && caller.Known() && caller.owner in Run(env, events).vaults
    requires
      var v := Run(env, events).vaults[caller.owner];
      ServicePromises.Speaks(v, caller, d) && v.devices[d].activatedEpoch == v.epoch
    ensures
      var st := Run(env, events);
      var v := st.vaults[caller.owner];
      var out := Submit(env, st, caller, q, Upload(h, body), clock);
      && (out.answer.Ok? <==>
          && ServicePromises.SignedAndUnused(env, st, v, d, caller, q, clock)
          && v.entries != [] && AtHead(env.crypto, v, d, h) && LinksToLatest(env.crypto, v, h)
          && SignedBy(env.crypto, v.devices[d], h) && HeaderAcceptance.Describes(env.crypto, h, body)
          && Unevictable(v.ciphertexts, v.currentRevision) + |body| <= env.byteBudget)
      && (out.answer.Ok? ==>
            && caller.owner in out.state.vaults
            && out.state.vaults == st.vaults[caller.owner := out.state.vaults[caller.owner]]
            && Uploaded(env, v, out.state.vaults[caller.owner], h, body))
  {
    hide Run, UploadTx, Uploaded, HeaderAcceptance.Describes, AtHead, VaultOk, Unevictable, Submit, ActorFor, SignedBy,
         LinksToLatest, ServicePromises.SignedAndUnused;
    EveryReachableStateOk(env, events);
    var st := Run(env, events);
    var v := st.vaults[caller.owner];
    assert VaultOk(env, v);
    ServicePromises.TokenFindsDevice(env, v, caller, d, 0);
    ServicePromises.DeviceRequestIff(env, st, caller, d, q, Upload(h, body), clock);
    VaultAcceptsIff(env, v, d, h, body);
    if UploadTx(env, v, ByDevice(v.devices[d]), h, body).Ok? {
      UploadLeaves(env, v, d, h, body);
    }
  }
}
