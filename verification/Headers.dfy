/** The hash-chained history of snapshot headers, each bound to a point of the device list. */
module Headers {
  import opened Basics
  import opened Records
  import opened DeviceLog

  const MAX_CIPHERTEXT_BYTES: nat := 10 * 1024 * 1024
  const NONCE_BYTES: nat := 24

  predicate ValidHeader(c: Crypto, h: Header) {
    && h.version == VERSION_V3
    && OpaqueId(h.vaultId) && OpaqueId(h.deviceId)
    && h.revision != 0 && h.epoch != 0 && h.listIndex != 0
    && (h.revision == 1 <==> h.previousDigest == [])
    && (h.previousDigest != [] ==> ValidDigest(c, h.previousDigest))
    && ValidDigest(c, h.listDigest) && ValidDigest(c, h.ciphertextDigest)
    && 16 <= h.ciphertextLength <= MAX_CIPHERTEXT_BYTES
    && c.Decodes(h.nonce, NONCE_BYTES)
    && c.Decodes(h.signature, 64)
  }

  predicate CiphertextMatches(c: Crypto, h: Header, ciphertext: seq<Byte>) {
    && |ciphertext| == h.ciphertextLength
    && c.Decodes(h.ciphertextDigest, DIGEST_BYTES)
    && c.decode(h.ciphertextDigest).value == c.sha256(ciphertext)
  }

  predicate LinkHolds(c: Crypto, previous: Header, h: Header) {
    && CheckedNext(previous.revision) == Some(h.revision)
    && h.previousDigest == c.DigestOfHeader(previous)
    && h.listIndex >= previous.listIndex
    && h.epoch >= previous.epoch
  }

  predicate SignedByMember(c: Crypto, l: List, h: Header) {
    var signer := l.MemberAt(h.deviceId, h.listIndex);
    signer.Some? && c.SignatureHolds(signer.value.signingKey, HeaderSigning(h), h.signature)
  }

  /** One header against a verified list and, when there is one, the header before it. */
  function VerifyHeader(c: Crypto, l: List, previous: Option<Header>, h: Header): Result<(), Fault> {
    if !ValidHeader(c, h) then Err(Invalid)
    else if h.vaultId != l.vaultId || h.listIndex > l.Head() then Err(Broken)
    else if l.DigestAt(h.listIndex) != Some(h.listDigest) then Err(Broken)
    else if l.EpochAt(h.listIndex) != Some(h.epoch) then Err(Broken)
    else if previous.Some? && !LinkHolds(c, previous.value, h) then Err(Broken)
    else if !SignedByMember(c, l, h) then Err(Broken)
    else Ok(())
  }

  function VerifyHeaderChain(c: Crypto, l: List, previous: Option<Header>, headers: seq<Header>): Result<(), Fault>
    decreases |headers|
  {
    if headers == [] then
      Ok(())
    else
      var first :- VerifyHeader(c, l, previous, headers[0]);
      VerifyHeaderChain(c, l, Some(headers[0]), headers[1..])
  }

  /** The loop that carries the previous header along. */
  method VerifyChain(c: Crypto, l: List, previous: Option<Header>, headers: seq<Header>) returns (r: Result<(), Fault>)
    ensures r == VerifyHeaderChain(c, l, previous, headers)
  {
    hide VerifyHeader;
    var last := previous;
    var i := 0;
    while i < |headers|
      invariant 0 <= i <= |headers|
      invariant VerifyHeaderChain(c, l, previous, headers) == VerifyHeaderChain(c, l, last, headers[i..])
    {
      var step := VerifyHeader(c, l, last, headers[i]);
      if step.Err? {
        return step;
      }
      assert headers[i..][1..] == headers[i + 1..];
      last := Some(headers[i]);
      i := i + 1;
    }
    return Ok(());
  }

  function LastOr(previous: Option<Header>, headers: seq<Header>): Option<Header> {
    if headers == [] then previous else Some(headers[|headers| - 1])
  }

  /** Verification in pages, each continuing from the last header of the page before, accepts exactly
      what verification in one go accepts, with the same fault. */
  lemma {:induction false} ChainSplits(c: Crypto, l: List, previous: Option<Header>, a: seq<Header>, b: seq<Header>)
    ensures VerifyHeaderChain(c, l, previous, a + b) ==
            if VerifyHeaderChain(c, l, previous, a).Ok?
            then VerifyHeaderChain(c, l, LastOr(previous, a), b)
            else VerifyHeaderChain(c, l, previous, a)
    decreases |a|
  {
    hide VerifyHeader;
    if a == [] {
      assert a + b == b;
    } else {
      assert (a + b)[0] == a[0] && (a + b)[1..] == a[1..] + b;
      ChainSplits(c, l, Some(a[0]), a[1..], b);
      assert LastOr(Some(a[0]), a[1..]) == LastOr(previous, a);
    }
  }

  lemma ChainSnoc(c: Crypto, l: List, previous: Option<Header>, a: seq<Header>, h: Header)
    ensures VerifyHeaderChain(c, l, previous, a + [h]).Ok? <==>
            VerifyHeaderChain(c, l, previous, a).Ok? && VerifyHeader(c, l, LastOr(previous, a), h).Ok?
  {
    hide VerifyHeader;
    ChainSplits(c, l, previous, a, [h]);
    assert [h][1..] == [];
  }

  /** Dropping the oldest headers leaves a chain that still verifies on its own. */
  lemma ChainSuffix(c: Crypto, l: List, previous: Option<Header>, headers: seq<Header>, from: nat)
    requires from <= |headers|
    requires VerifyHeaderChain(c, l, previous, headers).Ok?
    ensures VerifyHeaderChain(c, l, None, headers[from..]).Ok?
  {
    hide VerifyHeader;
    ChainSplits(c, l, previous, headers[..from], headers[from..]);
    assert headers[..from] + headers[from..] == headers;
    var rest := headers[from..];
    if rest != [] {
      HeaderAlone(c, l, LastOr(previous, headers[..from]), rest[0]);
    }
  }

  /** Every header of a verified chain is verified against the one before it. */
  lemma {:induction false} ChainAt(c: Crypto, l: List, previous: Option<Header>, headers: seq<Header>, k: nat)
    requires VerifyHeaderChain(c, l, previous, headers).Ok?
    requires k < |headers|
    ensures VerifyHeader(c, l, if k == 0 then previous else Some(headers[k - 1]), headers[k]).Ok?
    decreases k
  {
    hide VerifyHeader;
    if k > 0 {
      ChainAt(c, l, Some(headers[0]), headers[1..], k - 1);
    }
  }

  /** A header that verifies after another also verifies on its own. */
  lemma HeaderAlone(c: Crypto, l: List, previous: Option<Header>, h: Header)
    requires VerifyHeader(c, l, previous, h).Ok?
    ensures VerifyHeader(c, l, None, h).Ok?
  {
    hide ValidHeader, SignedByMember, LinkHolds;
  }

  /** Along a chain revisions count up by one and neither the list index nor the epoch goes back. */
  lemma {:induction false} ChainIsMonotone(c: Crypto, l: List, previous: Option<Header>, headers: seq<Header>, i: nat,
                                           j: nat)
    requires VerifyHeaderChain(c, l, previous, headers).Ok?
    requires i <= j < |headers|
    ensures headers[j].revision == headers[i].revision + (j - i)
    ensures headers[i].listIndex <= headers[j].listIndex
    ensures headers[i].epoch <= headers[j].epoch
    decreases j
  {
    if i < j {
      ChainIsMonotone(c, l, previous, headers, i, j - 1);
      ChainAt(c, l, previous, headers, j);
    }
  }

  // ---------------------------------------------------------------------------------------------
  // Later list entries

  /** A later list entry neither breaks a header that verified nor repairs one that did not, as long as
      the header names an index the list already had. */
  lemma HeaderIsStable(c: Crypto, l: List, e: Entry, previous: Option<Header>, h: Header)
    requires WellFormed(l) && l.Head() > 0
    requires Extend(c, l, e).Ok?
    requires h.listIndex <= l.Head()
    ensures VerifyHeader(c, Extend(c, l, e).value, previous, h) == VerifyHeader(c, l, previous, h)
  {
    hide Extend, ValidHeader, LinkHolds, WellFormed;
    ExtendKeepsWellFormed(c, l, e);
    if ValidHeader(c, h) {
      assert h.listIndex != 0 by { ValidHeaderIndex(c, h); }
      ExtendKeepsColumns(c, l, e, h.listIndex) by { WellFormedColumns(l); }
      ExtendKeepsHistory(c, l, e, h.deviceId, h.listIndex);
      SigningKeyOfStanding(l, h.deviceId, h.listIndex);
      SigningKeyOfStanding(Extend(c, l, e).value, h.deviceId, h.listIndex);
    }
  }

  lemma ValidHeaderIndex(c: Crypto, h: Header)
    requires ValidHeader(c, h)
    ensures h.listIndex != 0
  {
  }

  lemma WellFormedColumns(l: List)
    requires WellFormed(l)
    ensures |l.digests| == |l.epochs|
  {
  }

  lemma SigningKeyOfStanding(l: List, d: Text, index: U64)
    ensures l.MemberAt(d, index).Some? <==> StandingAt(l, d, index).Some?
    ensures l.MemberAt(d, index).Some? ==>
              l.MemberAt(d, index).value.signingKey == StandingAt(l, d, index).value.signingKey
  {
  }

  lemma {:induction false} ChainIsStable(c: Crypto, l: List, e: Entry, previous: Option<Header>, headers: seq<Header>)
    requires WellFormed(l) && l.Head() > 0
    requires Extend(c, l, e).Ok?
    requires VerifyHeaderChain(c, l, previous, headers).Ok?
    ensures VerifyHeaderChain(c, Extend(c, l, e).value, previous, headers).Ok?
    decreases |headers|
  {
    hide Extend, WellFormed;
    if headers != [] {
      HeaderIsStable(c, l, e, previous, headers[0]);
      ChainIsStable(c, l, e, Some(headers[0]), headers[1..]);
    }
  }

  // ---------------------------------------------------------------------------------------------
  // What a header pins

  /** A header that verifies against two lists pins one membership and epoch history in both. */
  lemma HeaderPinsList(c: Crypto, e: seq<Entry>, f: seq<Entry>, p: Option<Header>, q: Option<Header>, h: Header)
    requires Replay(c, e).Ok? && Replay(c, f).Ok?
    requires VerifyHeader(c, Replay(c, e).value, p, h).Ok?
    requires VerifyHeader(c, Replay(c, f).value, q, h).Ok?
    ensures 1 <= h.listIndex <= |e| && h.listIndex <= |f|
    ensures e[..h.listIndex] == f[..h.listIndex] || exists k :: 0 <= k < h.listIndex && CollidesAt(c, e, f, k)
  {
    hide Replay;
    ReplayWellFormed(c, e);
    ReplayWellFormed(c, f);
    DigestPinsHistory(c, e, f, h.listIndex);
  }

  /** The k-th headers from the end collide: they differ but digest alike. */
  ghost predicate HeadersCollide(c: Crypto, a: seq<Header>, b: seq<Header>, k: nat) {
    1 <= k <= |a| && k <= |b| && c.Collides(HeaderDigest(a[|a| - k]), HeaderDigest(b[|b| - k]))
  }

  /** Verified histories whose latest headers have one digest are the same history, as far back as both
      reach; otherwise they exhibit a collision. */
  lemma {:induction false} HeaderDigestPinsHistory(
    c: Crypto, l: List, m: List, p: Option<Header>, q: Option<Header>, a: seq<Header>, b: seq<Header>, depth: nat)
    requires VerifyHeaderChain(c, l, p, a).Ok? && VerifyHeaderChain(c, m, q, b).Ok?
    requires 1 <= depth <= |a| && depth <= |b|
    requires c.DigestOfHeader(a[|a| - 1]) == c.DigestOfHeader(b[|b| - 1])
    ensures a[|a| - depth..] == b[|b| - depth..] || exists k: nat :: k <= depth && HeadersCollide(c, a, b, k)
    decreases depth
  {
    hide VerifyHeaderChain;
    var i, j := |a| - depth, |b| - depth;
    if depth == 1 {
      assert c.DigestOfHeader(a[i]) == c.DigestOfHeader(b[j]);
    } else {
      HeaderDigestPinsHistory(c, l, m, p, q, a, b, depth - 1);
      if a[i + 1..] == b[j + 1..] {
        assert a[i + 1] == a[i + 1..][0] && b[j + 1] == b[j + 1..][0];
        LinkedDigest(c, l, p, a, i + 1);
        LinkedDigest(c, m, q, b, j + 1);
      }
    }
    assert a[i..] == [a[i]] + a[i + 1..] && b[j..] == [b[j]] + b[j + 1..];
    assert c.DigestOfHeader(a[i]) == c.DigestOfHeader(b[j]) && a[i] != b[j] ==> HeadersCollide(c, a, b, depth);
  }

  lemma LinkedDigest(c: Crypto, l: List, previous: Option<Header>, headers: seq<Header>, k: nat)
    requires VerifyHeaderChain(c, l, previous, headers).Ok?
    requires 0 < k < |headers|
    ensures headers[k].previousDigest == c.DigestOfHeader(headers[k - 1])
  {
    ChainAt(c, l, previous, headers, k);
  }

  /** Whoever signed a verified header was a member at the list index it names, by the log itself. */
  lemma HeaderSignerWasMember(c: Crypto, entries: seq<Entry>, previous: Option<Header>, h: Header)
    requires Replay(c, entries).Ok?
    requires VerifyHeader(c, Replay(c, entries).value, previous, h).Ok?
    ensures 1 <= h.listIndex <= |entries|
    ensures
      var holder := Holder(entries[..h.listIndex], h.deviceId);
      && holder.Some?
      && c.SignatureHolds(holder.value.signingKey, HeaderSigning(h), h.signature)
    ensures h.epoch == 1 + RekeyCount(entries[..h.listIndex])
  {
    hide Replay, Holder, RekeyCount;
    ReplayWellFormed(c, entries);
    MemberAtIsPrefixReplay(c, entries, h.deviceId, h.listIndex);
    EpochAtIsPrefixReplay(c, entries, h.listIndex);
    SigningKeyOfStanding(Replay(c, entries).value, h.deviceId, h.listIndex);
  }
}
