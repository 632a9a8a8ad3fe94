/** Signed statements by a device of how far it has seen the device list and the header history. */
module Checkpoints {
  import opened Basics
  import opened Records
  import opened DeviceLog
  import H = Headers

  predicate ValidCheckpoint(c: Crypto, p: Checkpoint) {
    && p.version == VERSION_V3
    && OpaqueId(p.vaultId) && OpaqueId(p.deviceId)
    && p.listIndex != 0 && ValidDigest(c, p.listDigest)
    && (p.headerRevision == 0 <==> p.headerDigest == [])
    && (p.headerDigest != [] ==> ValidDigest(c, p.headerDigest))
    && p.observedAt != 0
    && c.Decodes(p.signature, 64)
  }

  predicate CheckpointSigned(c: Crypto, p: Checkpoint, key: Text) {
    ValidCheckpoint(c, p) && c.SignatureHolds(key, CheckpointSigning(p), p.signature)
  }

  /** A checkpoint is malformed, contradicts the list, or was not signed by a member at its index. */
  datatype Verdict = Agrees | Malformed | Contradicts | Unsigned

  function VerifyAgainst(c: Crypto, p: Checkpoint, l: List): Verdict {
    if !ValidCheckpoint(c, p) || p.vaultId != l.vaultId then Malformed
    else if p.listIndex > l.Head() || l.DigestAt(p.listIndex) != Some(p.listDigest) then Contradicts
    else
      match l.MemberAt(p.deviceId, p.listIndex)
      case None => Unsigned
      case Some(m) => if CheckpointSigned(c, p, m.signingKey) then Agrees else Unsigned
  }

  /** A checkpoint that two devices both accept pins one list history in both. */
  lemma CheckpointPinsList(c: Crypto, p: Checkpoint, e: seq<Entry>, f: seq<Entry>)
    requires Replay(c, e).Ok? && Replay(c, f).Ok?
    requires VerifyAgainst(c, p, Replay(c, e).value).Agrees?
    requires VerifyAgainst(c, p, Replay(c, f).value).Agrees?
    ensures 1 <= p.listIndex <= |e| && p.listIndex <= |f|
    ensures e[..p.listIndex] == f[..p.listIndex] || exists k :: 0 <= k < p.listIndex && CollidesAt(c, e, f, k)
  {
    hide Replay;
    ReplayWellFormed(c, e);
    ReplayWellFormed(c, f);
    DigestPinsHistory(c, e, f, p.listIndex);
  }

  /** Whatever a verified list later grows by, its verdict on a checkpoint it can judge stays. */
  lemma CheckpointIsStable(c: Crypto, p: Checkpoint, l: List, e: Entry)
    requires WellFormed(l) && l.Head() > 0
    requires Extend(c, l, e).Ok?
    requires p.listIndex <= l.Head()
    ensures VerifyAgainst(c, p, Extend(c, l, e).value) == VerifyAgainst(c, p, l)
  {
    hide Extend, WellFormed;
    ExtendKeepsWellFormed(c, l, e);
    if ValidCheckpoint(c, p) {
      ExtendKeepsColumns(c, l, e, p.listIndex) by { H.WellFormedColumns(l); }
      ExtendKeepsHistory(c, l, e, p.deviceId, p.listIndex);
      H.SigningKeyOfStanding(l, p.deviceId, p.listIndex);
      H.SigningKeyOfStanding(Extend(c, l, e).value, p.deviceId, p.listIndex);
    }
  }
}
