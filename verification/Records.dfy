/** The signed records of the sync protocol and the byte strings their signatures and digests cover. */
module Records {
  import opened Basics
  import opened Canonical

  const VERSION_V3: I64 := 3

  const LABEL_DEVICE_LIST: Text := Ascii("sesame-sync-v3-devicelist")
  const LABEL_DEVICE_LIST_DIGEST: Text := Ascii("sesame-sync-v3-devicelist-digest")
  const LABEL_HEADER: Text := Ascii("sesame-sync-v3-header")
  const LABEL_HEADER_DIGEST: Text := Ascii("sesame-sync-v3-header-digest")
  const LABEL_REQUEST: Text := Ascii("sesame-sync-v3-request")
  const LABEL_RECEIPT: Text := Ascii("sesame-sync-v3-receipt")
  const LABEL_AAD: Text := Ascii("sesame-sync-v3-aad")
  const LABEL_KEY_PACKAGE: Text := Ascii("sesame-sync-v3-keypackage")
  const LABEL_KEY_PACKAGE_DIGEST: Text := Ascii("sesame-sync-v3-keypackage-digest")
  const LABEL_CHECKPOINT: Text := Ascii("sesame-sync-v3-checkpoint")

  datatype Entry = Entry(
    vaultId: Text, index: U64, previousDigest: Text, kind: Text,
    signer: Text, subject: Text, signingKey: Text, packageKey: Text,
    sealedLabel: Text, epochAfter: U64, snapshotFloor: U64, signature: Text)

  datatype Header = Header(
    version: I64, vaultId: Text, deviceId: Text, revision: U64, epoch: U64,
    listIndex: U64, listDigest: Text, previousDigest: Text,
    ciphertextDigest: Text, ciphertextLength: U64, nonce: Text, signature: Text)

  datatype KeyPackage = KeyPackage(
    vaultId: Text, sender: Text, recipient: Text, epoch: U64,
    entryDigest: Text, ciphertext: Text, signature: Text)

  datatype Checkpoint = Checkpoint(
    version: I64, vaultId: Text, deviceId: Text, listIndex: U64, listDigest: Text,
    headerRevision: U64, headerDigest: Text, observedAt: U64, signature: Text)

  /** What a request signature covers; body and token enter as SHA-256 sums. */
  datatype RequestFields = RequestFields(
    verb: Text, target: Text, bodySum: Sum, tokenSum: Sum, timestamp: U64, nonce: Text)

  datatype Receipt = Receipt(
    vaultId: Text, revision: U64, headerDigest: Text, epoch: U64, acceptedAt: U64)

  /** Every byte string the protocol signs, digests or authenticates. */
  datatype Payload =
    | EntrySigning(entry: Entry)
    | EntryDigest(entry: Entry)
    | HeaderSigning(header: Header)
    | HeaderDigest(header: Header)
    | RequestSigning(request: RequestFields)
    | ReceiptSigning(receipt: Receipt)
    | SnapshotAad(header: Header)
    | PackageSigning(package: KeyPackage)
    | PackageDigest(package: KeyPackage)
    | CheckpointSigning(checkpoint: Checkpoint)

  /** Go's conversion from `int` to `uint64`. */
  function Unsigned(n: I64): U64 {
    n % U64_LIMIT
  }

  function EntryFields(e: Entry): seq<Text> {
    [e.vaultId, Number(e.index), e.previousDigest, e.kind, e.signer, e.subject, e.signingKey,
     e.packageKey, e.sealedLabel, Number(e.epochAfter), Number(e.snapshotFloor)]
  }

  function AadFields(h: Header): seq<Text> {
    [Number(Unsigned(h.version)), h.vaultId, h.deviceId, Number(h.revision), Number(h.epoch),
     Number(h.listIndex), h.listDigest, h.previousDigest]
  }

  function HeaderFields(h: Header): seq<Text> {
    AadFields(h) + [h.ciphertextDigest, Number(h.ciphertextLength), h.nonce]
  }

  function PackageFields(p: KeyPackage): seq<Text> {
    [p.vaultId, p.sender, p.recipient, Number(p.epoch), p.entryDigest, p.ciphertext]
  }

  function CheckpointFields(c: Checkpoint): seq<Text> {
    [Number(Unsigned(c.version)), c.vaultId, c.deviceId, Number(c.listIndex), c.listDigest,
     Number(c.headerRevision), c.headerDigest, Number(c.observedAt)]
  }

  function Tag(p: Payload): Text {
    match p
    case EntrySigning(_) => LABEL_DEVICE_LIST
    case EntryDigest(_) => LABEL_DEVICE_LIST_DIGEST
    case HeaderSigning(_) => LABEL_HEADER
    case HeaderDigest(_) => LABEL_HEADER_DIGEST
    case RequestSigning(_) => LABEL_REQUEST
    case ReceiptSigning(_) => LABEL_RECEIPT
    case SnapshotAad(_) => LABEL_AAD
    case PackageSigning(_) => LABEL_KEY_PACKAGE
    case PackageDigest(_) => LABEL_KEY_PACKAGE_DIGEST
    case CheckpointSigning(_) => LABEL_CHECKPOINT
  }

  function Fields(p: Payload): seq<Text> {
    match p
    case EntrySigning(e) => EntryFields(e)
    case EntryDigest(e) => EntryFields(e) + [e.signature]
    case HeaderSigning(h) => HeaderFields(h)
    case HeaderDigest(h) => HeaderFields(h) + [h.signature]
    case RequestSigning(r) =>
      [r.verb, r.target, r.bodySum, r.tokenSum, Number(r.timestamp), r.nonce]
    case ReceiptSigning(r) =>
      [r.vaultId, Number(r.revision), r.headerDigest, Number(r.epoch), Number(r.acceptedAt)]
    case SnapshotAad(h) => AadFields(h)
    case PackageSigning(k) => PackageFields(k)
    case PackageDigest(k) => PackageFields(k) + [k.signature]
    case CheckpointSigning(c) => CheckpointFields(c)
  }

  function Encode(p: Payload): seq<Byte> {
    Frames([Tag(p)] + Fields(p))
  }

  /** The payload with every field its bytes do not cover blanked out. */
  function Covered(p: Payload): Payload {
    match p
    case EntrySigning(e) => EntrySigning(e.(signature := []))
    case HeaderSigning(h) => HeaderSigning(h.(signature := []))
    case SnapshotAad(h) =>
      SnapshotAad(h.(ciphertextDigest := [], ciphertextLength := 0, nonce := [], signature := []))
    case PackageSigning(k) => PackageSigning(k.(signature := []))
    case CheckpointSigning(c) => CheckpointSigning(c.(signature := []))
    case _ => p
  }

  // ---------------------------------------------------------------------------------------------
  // Domain separation and injectivity

  lemma TagsOfSameLength()
    ensures LABEL_DEVICE_LIST != LABEL_KEY_PACKAGE
    ensures LABEL_DEVICE_LIST != LABEL_CHECKPOINT
    ensures LABEL_KEY_PACKAGE != LABEL_CHECKPOINT
    ensures LABEL_DEVICE_LIST_DIGEST != LABEL_KEY_PACKAGE_DIGEST
    ensures LABEL_REQUEST != LABEL_RECEIPT
  {
    assert LABEL_DEVICE_LIST[15] == 'd' as int;
    assert LABEL_KEY_PACKAGE[15] == 'k' as int;
    assert LABEL_CHECKPOINT[15] == 'c' as int;
    assert LABEL_DEVICE_LIST_DIGEST[15] == 'd' as int;
    assert LABEL_KEY_PACKAGE_DIGEST[15] == 'k' as int;
    assert LABEL_REQUEST[17] == 'q' as int;
    assert LABEL_RECEIPT[17] == 'c' as int;
  }

  predicate SameKind(p: Payload, q: Payload) {
    match (p, q)
    case (EntrySigning(_), EntrySigning(_)) => true
    case (EntryDigest(_), EntryDigest(_)) => true
    case (HeaderSigning(_), HeaderSigning(_)) => true
    case (HeaderDigest(_), HeaderDigest(_)) => true
    case (RequestSigning(_), RequestSigning(_)) => true
    case (ReceiptSigning(_), ReceiptSigning(_)) => true
    case (SnapshotAad(_), SnapshotAad(_)) => true
    case (PackageSigning(_), PackageSigning(_)) => true
    case (PackageDigest(_), PackageDigest(_)) => true
    case (CheckpointSigning(_), CheckpointSigning(_)) => true
    case _ => false
  }

  lemma TagNamesKind(p: Payload, q: Payload)
    requires Tag(p) == Tag(q)
    ensures SameKind(p, q)
  {
    TagsOfSameLength();
  }

  lemma EntryFieldsInjective(a: Entry, b: Entry)
    requires EntryFields(a) == EntryFields(b)
    ensures a.(signature := []) == b.(signature := [])
  {
    var x, y := EntryFields(a), EntryFields(b);
    assert forall i | 0 <= i < 11 :: x[i] == y[i];
    NumberInjective(a.index, b.index);
    NumberInjective(a.epochAfter, b.epochAfter);
    NumberInjective(a.snapshotFloor, b.snapshotFloor);
  }

  lemma AadFieldsInjective(a: Header, b: Header)
    requires AadFields(a) == AadFields(b)
    ensures Covered(SnapshotAad(a)) == Covered(SnapshotAad(b))
  {
    var x, y := AadFields(a), AadFields(b);
    assert forall i | 0 <= i < 8 :: x[i] == y[i];
    NumberInjective(Unsigned(a.version), Unsigned(b.version));
    NumberInjective(a.revision, b.revision);
    NumberInjective(a.epoch, b.epoch);
    NumberInjective(a.listIndex, b.listIndex);
  }

  lemma HeaderFieldsInjective(a: Header, b: Header)
    requires HeaderFields(a) == HeaderFields(b)
    ensures a.(signature := []) == b.(signature := [])
  {
    var x, y := HeaderFields(a), HeaderFields(b);
    assert x[..8] == AadFields(a) && y[..8] == AadFields(b);
    AadFieldsInjective(a, b);
    assert x[8] == y[8] && x[9] == y[9] && x[10] == y[10];
    NumberInjective(a.ciphertextLength, b.ciphertextLength);
  }

  lemma PackageFieldsInjective(a: KeyPackage, b: KeyPackage)
    requires PackageFields(a) == PackageFields(b)
    ensures a.(signature := []) == b.(signature := [])
  {
    var x, y := PackageFields(a), PackageFields(b);
    assert forall i | 0 <= i < 6 :: x[i] == y[i];
    NumberInjective(a.epoch, b.epoch);
  }

  lemma CheckpointFieldsInjective(a: Checkpoint, b: Checkpoint)
    requires CheckpointFields(a) == CheckpointFields(b)
    ensures a.(signature := []) == b.(signature := [])
  {
    var x, y := CheckpointFields(a), CheckpointFields(b);
    assert forall i | 0 <= i < 8 :: x[i] == y[i];
    NumberInjective(Unsigned(a.version), Unsigned(b.version));
    NumberInjective(a.listIndex, b.listIndex);
    NumberInjective(a.headerRevision, b.headerRevision);
    NumberInjective(a.observedAt, b.observedAt);
  }

  lemma SnocInjective(x: seq<Text>, a: Text, y: seq<Text>, b: Text)
    requires x + [a] == y + [b]
    ensures x == y && a == b
  {
    assert |x| == |y|;
    assert x == (x + [a])[..|x|] && y == (y + [b])[..|y|];
    assert (x + [a])[|x|] == a && (y + [b])[|y|] == b;
  }

  lemma FieldsInjective(p: Payload, q: Payload)
    requires SameKind(p, q)
    requires Fields(p) == Fields(q)
    ensures Covered(p) == Covered(q)
  {
    match p
    case EntrySigning(e) =>
      EntryFieldsInjective(e, q.entry);
    case EntryDigest(e) =>
      SnocInjective(EntryFields(e), e.signature, EntryFields(q.entry), q.entry.signature);
      EntryFieldsInjective(e, q.entry);
    case HeaderSigning(h) =>
      HeaderFieldsInjective(h, q.header);
    case HeaderDigest(h) =>
      SnocInjective(HeaderFields(h), h.signature, HeaderFields(q.header), q.header.signature);
      HeaderFieldsInjective(h, q.header);
    case RequestSigning(r) =>
      var x, y := Fields(p), Fields(q);
      assert forall i | 0 <= i < 6 :: x[i] == y[i];
      NumberInjective(r.timestamp, q.request.timestamp);
    case ReceiptSigning(r) =>
      var x, y := Fields(p), Fields(q);
      assert forall i | 0 <= i < 5 :: x[i] == y[i];
      NumberInjective(r.revision, q.receipt.revision);
      NumberInjective(r.epoch, q.receipt.epoch);
      NumberInjective(r.acceptedAt, q.receipt.acceptedAt);
    case SnapshotAad(h) =>
      AadFieldsInjective(h, q.header);
    case PackageSigning(k) =>
      PackageFieldsInjective(k, q.package);
    case PackageDigest(k) =>
      SnocInjective(PackageFields(k), k.signature, PackageFields(q.package), q.package.signature);
      PackageFieldsInjective(k, q.package);
    case CheckpointSigning(c) =>
      CheckpointFieldsInjective(c, q.checkpoint);
  }

  /** Equal bytes come only from records of one kind that agree on every covered field: no signature or
      digest made for one kind of record can be presented for another. */
  lemma PayloadsInjective(p: Payload, q: Payload)
    requires Encode(p) == Encode(q)
    ensures SameKind(p, q)
    ensures Covered(p) == Covered(q)
  {
    var x, y := [Tag(p)] + Fields(p), [Tag(q)] + Fields(q);
    FramesInjective(x, y);
    assert x[0] == y[0];
    TagNamesKind(p, q);
    assert x[1..] == Fields(p) && y[1..] == Fields(q);
    FieldsInjective(p, q);
  }

  // ---------------------------------------------------------------------------------------------
  // Cryptography over records

  /** The cryptography the protocol layers see: digests and signatures of whole payloads. */
  datatype Crypto = Crypto(
    digest: Payload -> Text,
    verify: (Text, Payload, Text) -> bool,
    sha256: seq<Byte> -> Sum,
    decode: Text -> Option<seq<Byte>>)
  {
    /** Two different payloads with one digest. */
    ghost predicate Collides(p: Payload, q: Payload) {
      p != q && digest(p) == digest(q)
    }

    predicate Decodes(value: Text, length: nat) {
      decode(value).Some? && |decode(value).value| == length
    }

    predicate DecodesWithin(value: Text, low: nat, high: nat) {
      decode(value).Some? && low <= |decode(value).value| <= high
    }

    /** A detached signature; key and signature must be canonical texts of the right lengths. */
    predicate SignatureHolds(key: Text, p: Payload, signature: Text) {
      Decodes(key, 32) && Decodes(signature, 64) && verify(key, p, signature)
    }

    function DigestOfEntry(e: Entry): Text {
      digest(EntryDigest(e))
    }

    function DigestOfHeader(h: Header): Text {
      digest(HeaderDigest(h))
    }
  }

  /** Payloads are digested and signed through their canonical bytes. */
  function OverBytes(b: Primitives): Crypto {
    Crypto(
      (p: Payload) => b.Digest(Encode(p)),
      (key: Text, p: Payload, signature: Text) =>
        b.decode(key).Some? && b.decode(signature).Some?
        && b.verify(b.decode(key).value, Encode(p), b.decode(signature).value),
      b.sha256,
      b.decode)
  }

  /** The payload kinds that are ever digested. */
  predicate IsDigested(p: Payload) {
    p.EntryDigest? || p.HeaderDigest? || p.PackageDigest?
  }

  /** A digest identifies its record, signature included, or the hash function itself has collided:
      two records never share their bytes. */
  lemma PayloadCollisionIsHashCollision(b: Primitives, p: Payload, q: Payload)
    requires IsDigested(p) && IsDigested(q)
    ensures OverBytes(b).Collides(p, q) <==> b.Collides(Encode(p), Encode(q))
    ensures (forall x :: b.decode(b.encode(x)) == Some(x)) ==>
            (OverBytes(b).Collides(p, q) <==> Encode(p) != Encode(q) && b.sha256(Encode(p)) == b.sha256(Encode(q)))
  {
    hide Encode;
    if Encode(p) == Encode(q) {
      PayloadsInjective(p, q);
    }
  }

  // ---------------------------------------------------------------------------------------------
  // The encoder as the builder runs it

  /** Builds any payload by adding its label and then its fields, in order. */
  method BuildPayload(p: Payload) returns (out: seq<Byte>)
    ensures out == Encode(p)
  {
    hide Tag, Fields, Frames;
    var fields := Fields(p);
    var builder := new Builder(Tag(p));
    for i := 0 to |fields|
      invariant fresh(builder)
      invariant builder.Valid() && builder.parts == [Tag(p)] + fields[..i]
    {
      builder.Add(fields[i]);
    }
    assert fields[..|fields|] == fields;
    out := builder.out;
  }
}
