/** Which headers and checkpoints verify against a device list, read off the log lines alone. */
module HeaderAcceptance {
  import opened Basics
  import opened Records
  import opened DeviceLog
  import opened Headers
  import opened LogAcceptance
  import Checkpoints

  // ---------------------------------------------------------------------------------------------
  // Headers

  predicate HeaderShaped(c: Crypto, h: Header) {
    && h.version == 3 && OpaqueId(h.vaultId) && OpaqueId(h.deviceId)
    && 0 < h.revision && 0 < h.epoch && 0 < h.listIndex
    && (if h.revision == 1 then h.previousDigest == [] else h.previousDigest != [] && Fits(c, h.previousDigest, {32}))
    && Fits(c, h.listDigest, {32}) && Fits(c, h.ciphertextDigest, {32})
    && 16 <= h.ciphertextLength <= 10_485_760
    && Fits(c, h.nonce, {24}) && Fits(c, h.signature, {64})
  }

  lemma ValidIsShaped(c: Crypto, h: Header)
    ensures ValidHeader(c, h) <==> HeaderShaped(c, h)
  {
    hide OpaqueId;
  }

  /** The header carries the length and the sum of the body. */
  predicate Describes(c: Crypto, h: Header, body: seq<Byte>) {
    |body| == h.ciphertextLength && c.decode(h.ciphertextDigest) == Some(c.sha256(body))
  }

  lemma MatchesIsDescribed(c: Crypto, h: Header, body: seq<Byte>)
    ensures CiphertextMatches(c, h, body) <==> Describes(c, h, body)
  {
  }

  /** The header names a point of the log, and was signed by a device that was a member there. */
  ghost predicate AtPointOf(c: Crypto, entries: seq<Entry>, h: Header) {
    && 1 <= h.listIndex <= |entries|
    && h.vaultId == entries[0].vaultId
    && h.listDigest == c.DigestOfEntry(entries[h.listIndex - 1])
    && h.epoch == LogEpoch(entries[..h.listIndex])
    && var signer := Holder(entries[..h.listIndex], h.deviceId);
       signer.Some? && c.SignatureHolds(signer.value.signingKey, HeaderSigning(h), h.signature)
  }

  /** The header is the next one after another, and does not go back in the list. */
  predicate Follows(c: Crypto, previous: Header, h: Header) {
    && h.revision == previous.revision + 1 && h.previousDigest == c.DigestOfHeader(previous)
    && previous.listIndex <= h.listIndex && previous.epoch <= h.epoch
  }

  /** What the list answers at an index, by the log. */
  lemma ListAt(c: Crypto, entries: seq<Entry>, index: U64, d: Text)
    requires Replay(c, entries).Ok? && 1 <= index <= |entries|
    ensures
      var l := Replay(c, entries).value;
      && l.Head() == |entries| && l.vaultId == entries[0].vaultId
      && l.DigestAt(index) == Some(c.DigestOfEntry(entries[index - 1]))
      && l.EpochAt(index) == Some(LogEpoch(entries[..index]))
      && l.MemberAt(d, index).Some? == Holder(entries[..index], d).Some?
      && (l.MemberAt(d, index).Some? ==>
            l.MemberAt(d, index).value.signingKey == Holder(entries[..index], d).value.signingKey)
  {
    hide Replay, Holder, RekeyCount, Extend;
    ListAtHead(c, entries);
    EpochAtIsPrefixReplay(c, entries, index);
    MemberAtIsPrefixReplay(c, entries, d, index);
  }

  /** A header verifies against a verified list if and only if it has the right shape, stands at a point of the log, and
      follows the header before it. */
  lemma HeaderIff(c: Crypto, entries: seq<Entry>, previous: Option<Header>, h: Header)
    requires Replay(c, entries).Ok?
    ensures
      var r := VerifyHeader(c, Replay(c, entries).value, previous, h);
      && (r.Ok? <==>
          HeaderShaped(c, h) && AtPointOf(c, entries, h) && (previous.Some? ==> Follows(c, previous.value, h)))
      && (r.Err? ==> (r.error == Invalid <==> !HeaderShaped(c, h)))
  {
    hide Replay, Holder, LogEpoch, ValidHeader, List.DigestAt, List.EpochAt, List.MemberAt;
    ValidIsShaped(c, h);
    ListAtHead(c, entries);
    if 1 <= h.listIndex <= |entries| {
      ListAt(c, entries, h.listIndex, h.deviceId);
    }
  }

  /** A chain verifies if and only if every header does and follows the one before it. */
  lemma {:induction false} ChainIff(c: Crypto, entries: seq<Entry>, headers: seq<Header>)
    requires Replay(c, entries).Ok?
    ensures VerifyHeaderChain(c, Replay(c, entries).value, None, headers).Ok? <==>
            && (forall k | 0 <= k < |headers| :: HeaderShaped(c, headers[k]) && AtPointOf(c, entries, headers[k]))
            && (forall k | 0 < k < |headers| :: Follows(c, headers[k - 1], headers[k]))
    decreases |headers|
  {
    hide Replay, VerifyHeader, HeaderShaped, AtPointOf, Follows;
    if headers != [] {
      var init, h := headers[..|headers| - 1], headers[|headers| - 1];
      assert init + [h] == headers;
      ChainIff(c, entries, init);
      ChainSnoc(c, Replay(c, entries).value, None, init, h);
      HeaderIff(c, entries, LastOr(None, init), h);
      assert forall k | 0 <= k < |init| :: init[k] == headers[k];
    }
  }

  // ---------------------------------------------------------------------------------------------
  // Checkpoints

  predicate CheckpointShaped(c: Crypto, p: Checkpoint) {
    && p.version == 3 && OpaqueId(p.vaultId) && OpaqueId(p.deviceId)
    && 0 < p.listIndex && Fits(c, p.listDigest, {32}) && 0 < p.observedAt
    && (if p.headerRevision == 0 then p.headerDigest == [] else p.headerDigest != [] && Fits(c, p.headerDigest, {32}))
    && Fits(c, p.signature, {64})
  }

  lemma ValidCheckpointIsShaped(c: Crypto, p: Checkpoint)
    ensures Checkpoints.ValidCheckpoint(c, p) <==> CheckpointShaped(c, p)
  {
    hide OpaqueId;
  }

  /** A checkpoint agrees with a verified list if and only if it has the right shape, names a point of the log, and was
      signed by a device that was a member there. */
  lemma CheckpointIff(c: Crypto, entries: seq<Entry>, p: Checkpoint)
    requires Replay(c, entries).Ok?
    ensures Checkpoints.VerifyAgainst(c, p, Replay(c, entries).value).Agrees? <==>
            && CheckpointShaped(c, p) && p.listIndex <= |entries|
            && p.vaultId == entries[0].vaultId && p.listDigest == c.DigestOfEntry(entries[p.listIndex - 1])
            && Holder(entries[..p.listIndex], p.deviceId).Some?
            && c.SignatureHolds(Holder(entries[..p.listIndex], p.deviceId).value.signingKey, CheckpointSigning(p),
                                p.signature)
  {
    hide Replay, Holder, LogEpoch, Checkpoints.ValidCheckpoint, List.DigestAt, List.EpochAt, List.MemberAt;
    ValidCheckpointIsShaped(c, p);
    ListAtHead(c, entries);
    if 1 <= p.listIndex <= |entries| {
      ListAt(c, entries, p.listIndex, p.deviceId);
    }
  }
}
