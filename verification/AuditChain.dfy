/** The hash chain over the administrators' audit log, and the signed checkpoints that pin its head. */
module AuditChain {
  import opened Basics
  import opened Texts

  /** The columns a row's hash covers. */
  datatype Columns = Columns(
    chainSeq: int, id: int, adminId: Text, adminEmail: Text, action: Text, targetType: Text,
    targetId: Text, detail: Text, ipHash: Text, createdAt: Time)

  datatype Row = Row(columns: Columns, prevHash: seq<Byte>, hash: seq<Byte>)

  datatype Checkpoint = Checkpoint(coverSeq: int, chainHash: seq<Byte>, keyId: Text, signedAt: Time,
                                   signature: seq<Byte>)

  /** SHA-256, the database's rendering of a row, the signed message of a checkpoint, and the check of a
      signature on it with a key. */
  datatype Tools = Tools(
    sha256: seq<Byte> -> Sum,
    render: Columns -> seq<Byte>,
    message: (int, seq<Byte>, Text, Time) -> seq<Byte>,
    verify: (seq<Byte>, seq<Byte>, seq<Byte>) -> bool)
  {
    function RowHash(previous: seq<Byte>, c: Columns): Sum {
      sha256(previous + render(c))
    }
  }

  function Zeros(n: nat): (z: seq<Byte>)
    ensures |z| == n
  {
    if n == 0 then [] else Zeros(n - 1) + [0]
  }

  /** The hash before the first row: all zero. */
  function Genesis(): Sum {
    Zeros(32)
  }

  datatype Reason = NoHash | NotLinked | NotMatching
  datatype Break = Break(chainSeq: int, id: int, reason: Reason)

  datatype Report = Report(
    verified: bool, rows: nat, headSeq: int, headId: int, headHash: seq<Byte>, firstBreak: Option<Break>)

  // ---------------------------------------------------------------------------------------------
  // Verification

  /** What is wrong with a row after the given hash, if anything. */
  function Fault(t: Tools, expected: seq<Byte>, r: Row): Option<Reason> {
    if |r.prevHash| != 32 || |r.hash| != 32 then Some(NoHash)
    else if r.prevHash != expected then Some(NotLinked)
    else if r.hash != t.RowHash(expected, r.columns) then Some(NotMatching)
    else None
  }

  function HashBefore(rows: seq<Row>, k: nat): seq<Byte>
    requires k <= |rows|
  {
    if k == 0 then Genesis() else rows[k - 1].hash
  }

  ghost predicate Sound(t: Tools, rows: seq<Row>, k: nat)
    requires k < |rows|
  {
    Fault(t, HashBefore(rows, k), rows[k]).None?
  }

  /** Every row carries the hash of the one before it and of its own contents. */
  ghost predicate Chained(t: Tools, rows: seq<Row>) {
    forall k | 0 <= k < |rows| :: Sound(t, rows, k)
  }

  /** The head of the log, as the report names it. */
  ghost predicate HeadIs(report: Report, r: Row) {
    report.headSeq == r.columns.chainSeq && report.headId == r.columns.id && report.headHash == r.hash
  }

  ghost predicate BreaksAt(t: Tools, rows: seq<Row>, k: nat, b: Option<Break>)
    requires k < |rows|
  {
    var fault := Fault(t, HashBefore(rows, k), rows[k]);
    fault.Some? && b == Some(Break(rows[k].columns.chainSeq, rows[k].columns.id, fault.value))
  }

  /** Walks the log in order and reports the first row that breaks the chain. */
  method VerifyChain(t: Tools, rows: seq<Row>) returns (report: Report)
    ensures report.verified <==> Chained(t, rows)
    ensures report.verified ==> report.rows == |rows| && report.firstBreak.None?
    ensures report.verified && rows != [] ==> HeadIs(report, rows[|rows| - 1])
    ensures !report.verified ==> 0 < report.rows <= |rows| && BreaksAt(t, rows, report.rows - 1, report.firstBreak)
    ensures !report.verified ==> forall k | 0 <= k < report.rows - 1 :: Sound(t, rows, k)
  {
    hide Genesis, Tools.RowHash, Fault;
    report := Report(false, 0, 0, 0, [], None);
    var expected: seq<Byte> := Genesis();
    var i := 0;
    while i < |rows|
      invariant 0 <= i <= |rows|
      invariant report.rows == i && !report.verified && report.firstBreak.None?
      invariant expected == HashBefore(rows, i)
      invariant forall k | 0 <= k < i :: Sound(t, rows, k)
      invariant i > 0 ==> HeadIs(report, rows[i - 1])
    {
      var r := rows[i];
      report := report.(rows := report.rows + 1);
      var fault := Fault(t, expected, r);
      if fault.Some? {
        report := report.(firstBreak := Some(Break(r.columns.chainSeq, r.columns.id, fault.value)));
        assert !Sound(t, rows, i);
        return;
      }
      assert Sound(t, rows, i);
      report := report.(headSeq := r.columns.chainSeq, headId := r.columns.id, headHash := r.hash);
      expected := r.hash;
      i := i + 1;
    }
    report := report.(verified := true);
  }

  // ---------------------------------------------------------------------------------------------
  // Checkpoints

  predicate AlreadyCovered(taken: seq<Checkpoint>, chainSeq: int) {
    exists k | 0 <= k < |taken| :: taken[k].coverSeq >= chainSeq
  }

  datatype Taking = BadKey | NoValidHead | UpToDate | Taken(checkpoint: Checkpoint)

  const PRIVATE_KEY_BYTES: nat := 64
  const PUBLIC_KEY_BYTES: nat := 32
  const MICROSECOND: int := 1000

  /** A new checkpoint for the head of the log, unless there is none or an earlier one covers it. */
  function CheckpointOf(t: Tools, rows: seq<Row>, taken: seq<Checkpoint>, signingKey: seq<Byte>, keyId: Text, now: Time,
                        sign: (seq<Byte>, seq<Byte>) -> seq<Byte>): (r: Taking)
    ensures r.BadKey? <==> |signingKey| != PRIVATE_KEY_BYTES || Blank(keyId)
    ensures r.Taken? <==>
              && !r.BadKey?
              && rows != [] && |rows[|rows| - 1].hash| == 32 && rows[|rows| - 1].columns.chainSeq > 0
              && !AlreadyCovered(taken, rows[|rows| - 1].columns.chainSeq)
    ensures r.Taken? ==>
              && r.checkpoint.coverSeq == rows[|rows| - 1].columns.chainSeq
              && r.checkpoint.chainHash == rows[|rows| - 1].hash
              && r.checkpoint.keyId == Trim(keyId)
              && r.checkpoint.signedAt <= now < r.checkpoint.signedAt + MICROSECOND
              && r.checkpoint.signedAt % MICROSECOND == 0
  {
    TrimIsEmpty(keyId);
    var id := Trim(keyId);
    if |signingKey| != PRIVATE_KEY_BYTES || id == [] then BadKey
    else if rows == [] then UpToDate
    else
      var last := rows[|rows| - 1];
      var seqNo := last.columns.chainSeq;
      if |last.hash| != 32 then NoValidHead
      else if AlreadyCovered(taken, seqNo) || seqNo <= 0 then UpToDate
      else
        var signedAt := now - now % MICROSECOND;
        Taken(Checkpoint(seqNo, last.hash, id, signedAt, sign(signingKey, t.message(seqNo, last.hash, id, signedAt))))
  }

  /** A head is checkpointed once: with the checkpoint taken, there is nothing to take until the log grows. */
  lemma CheckpointTakenOnce(t: Tools, rows: seq<Row>, taken: seq<Checkpoint>, more: seq<Checkpoint>,
                            signingKey: seq<Byte>, keyId: Text, now: Time, later: Time,
                            sign: (seq<Byte>, seq<Byte>) -> seq<Byte>, p: Checkpoint)
    requires CheckpointOf(t, rows, taken, signingKey, keyId, now, sign) == Taken(p)
    ensures CheckpointOf(t, rows, taken + [p] + more, signingKey, keyId, later, sign).UpToDate?
  {
    var all := taken + [p] + more;
    assert all[|taken|] == p;
  }

  /** The row at this position is the one the checkpoint names, unchanged. */
  ghost predicate Covers(rows: seq<Row>, p: Checkpoint, k: nat) {
    k < |rows| && rows[k].columns.chainSeq == p.coverSeq && rows[k].hash == p.chainHash
  }

  ghost predicate CheckpointHolds(t: Tools, publicKey: seq<Byte>, rows: seq<Row>, p: Checkpoint) {
    && t.verify(publicKey, t.message(p.coverSeq, p.chainHash, p.keyId, p.signedAt), p.signature)
    && exists k :: 0 <= k && Covers(rows, p, k)
  }

  /** The row with a sequence number, if the log has one. */
  method FindRow(rows: seq<Row>, chainSeq: int) returns (found: Option<nat>)
    ensures found.Some? ==> found.value < |rows| && rows[found.value].columns.chainSeq == chainSeq
    ensures found.None? ==> forall k | 0 <= k < |rows| :: rows[k].columns.chainSeq != chainSeq
  {
    for i := 0 to |rows|
      invariant forall k | 0 <= k < i :: rows[k].columns.chainSeq != chainSeq
    {
      if rows[i].columns.chainSeq == chainSeq {
        return Some(i);
      }
    }
    return None;
  }

  /** The one of the first `n` checkpoints made with a key that covers the most. */
  ghost predicate IsLatest(checkpoints: seq<Checkpoint>, n: nat, keyId: Text, latest: Option<Checkpoint>)
    requires n <= |checkpoints|
  {
    match latest
    case None => forall l | 0 <= l < n :: checkpoints[l].keyId != keyId
    case Some(p) =>
      exists k | 0 <= k < n ::
        && checkpoints[k] == p && p.keyId == keyId
        && forall l | 0 <= l < n && l != k && checkpoints[l].keyId == keyId :: checkpoints[l].coverSeq < p.coverSeq
  }

  ghost predicate AllHold(t: Tools, publicKey: seq<Byte>, rows: seq<Row>, checkpoints: seq<Checkpoint>, n: nat,
                          id: Text)
    requires n <= |checkpoints|
  {
    forall i | 0 <= i < n && checkpoints[i].keyId == id :: CheckpointHolds(t, publicKey, rows, checkpoints[i])
  }

  /** Checks every checkpoint made with a key against the log, in the order of what they cover, up to the first that
      fails. */
  method VerifyCheckpoints(t: Tools, publicKey: seq<Byte>, rows: seq<Row>, checkpoints: seq<Checkpoint>, keyId: Text)
    returns (usable: bool, firstBreak: Option<nat>, latest: Option<Checkpoint>)
    requires forall k, l | 0 <= k < l < |rows| :: rows[k].columns.chainSeq != rows[l].columns.chainSeq
    requires forall k, l | 0 <= k < l < |checkpoints| :: checkpoints[k].coverSeq < checkpoints[l].coverSeq
    ensures usable <==> |publicKey| == PUBLIC_KEY_BYTES
    ensures usable ==> (firstBreak.None? <==> AllHold(t, publicKey, rows, checkpoints, |checkpoints|, Trim(keyId)))
    ensures usable && firstBreak.None? ==> IsLatest(checkpoints, |checkpoints|, Trim(keyId), latest)
    ensures usable && firstBreak.Some? ==>
              && firstBreak.value < |checkpoints| && checkpoints[firstBreak.value].keyId == Trim(keyId)
              && !CheckpointHolds(t, publicKey, rows, checkpoints[firstBreak.value])
              && IsLatest(checkpoints, firstBreak.value, Trim(keyId), latest)
    ensures latest.Some? ==> CheckpointHolds(t, publicKey, rows, latest.value)
  {
    hide Trim;
    latest := None;
    if |publicKey| != PUBLIC_KEY_BYTES {
      return false, None, None;
    }
    var id := Trim(keyId);
    for i := 0 to |checkpoints|
      invariant AllHold(t, publicKey, rows, checkpoints, i, id)
      invariant IsLatest(checkpoints, i, id, latest)
      invariant latest.Some? ==> CheckpointHolds(t, publicKey, rows, latest.value)
    {
      var p := checkpoints[i];
      if p.keyId == id {
        if !t.verify(publicKey, t.message(p.coverSeq, p.chainHash, p.keyId, p.signedAt), p.signature) {
          return true, Some(i), latest;
        }
        var row := FindRow(rows, p.coverSeq);
        if row.None? || rows[row.value].hash != p.chainHash {
          return true, Some(i), latest;
        }
        assert Covers(rows, p, row.value);
        latest := Some(p);
      }
    }
    return true, None, latest;
  }

  // ---------------------------------------------------------------------------------------------
  // A checkpoint just taken verifies

  /** The public key accepts whatever the private key signs. */
  ghost predicate KeyPair(t: Tools, publicKey: seq<Byte>, signingKey: seq<Byte>,
                          sign: (seq<Byte>, seq<Byte>) -> seq<Byte>) {
    forall m :: t.verify(publicKey, m, sign(signingKey, m))
  }

  /** A checkpoint holds in every log that begins with the one it was taken from. */
  lemma TakenHolds(t: Tools, rows: seq<Row>, taken: seq<Checkpoint>, signingKey: seq<Byte>, keyId: Text, now: Time,
                   sign: (seq<Byte>, seq<Byte>) -> seq<Byte>, p: Checkpoint, publicKey: seq<Byte>, later: seq<Row>)
    requires CheckpointOf(t, rows, taken, signingKey, keyId, now, sign) == Taken(p)
    requires KeyPair(t, publicKey, signingKey, sign) && rows <= later
    ensures CheckpointHolds(t, publicKey, later, p)
  {
    hide Trim, Blank;
    assert Covers(later, p, |rows| - 1);
  }

  lemma HoldsLater(t: Tools, publicKey: seq<Byte>, rows: seq<Row>, later: seq<Row>, p: Checkpoint)
    requires CheckpointHolds(t, publicKey, rows, p) && rows <= later
    ensures CheckpointHolds(t, publicKey, later, p)
  {
    var k :| 0 <= k && Covers(rows, p, k);
    assert Covers(later, p, k);
  }

  /** Checkpoints that held, with a new one appended, hold in every later log; the new one is the latest, and the only
      value a verification can report as such. */
  lemma TakenVerifies(t: Tools, rows: seq<Row>, taken: seq<Checkpoint>, signingKey: seq<Byte>, keyId: Text, now: Time,
                      sign: (seq<Byte>, seq<Byte>) -> seq<Byte>, p: Checkpoint, publicKey: seq<Byte>, later: seq<Row>)
    requires CheckpointOf(t, rows, taken, signingKey, keyId, now, sign) == Taken(p)
    requires KeyPair(t, publicKey, signingKey, sign) && rows <= later
    requires AllHold(t, publicKey, rows, taken, |taken|, Trim(keyId))
    requires forall k, l | 0 <= k < l < |taken| :: taken[k].coverSeq < taken[l].coverSeq
    ensures
      var all := taken + [p];
      && (forall k, l | 0 <= k < l < |all| :: all[k].coverSeq < all[l].coverSeq)
      && AllHold(t, publicKey, later, all, |all|, Trim(keyId))
      && forall latest :: IsLatest(all, |all|, Trim(keyId), latest) <==> latest == Some(p)
  {
    hide Trim, Blank, CheckpointHolds;
    var all := taken + [p];
    TakenHolds(t, rows, taken, signingKey, keyId, now, sign, p, publicKey, later);
    assert forall k | 0 <= k < |taken| :: taken[k].coverSeq < p.coverSeq;
    forall i | 0 <= i < |all| && all[i].keyId == Trim(keyId)
      ensures CheckpointHolds(t, publicKey, later, all[i])
    {
      if i < |taken| {
        assert CheckpointHolds(t, publicKey, rows, taken[i]);
        HoldsLater(t, publicKey, rows, later, taken[i]);
      }
    }
    assert all[|taken|] == p;
  }

  // ---------------------------------------------------------------------------------------------
  // What a checkpoint pins

  /** Two rows that differ although what was hashed for them agrees in sum: a collision of the hash, or two
      rows the database renders alike. */
  ghost predicate HashCollision(t: Tools, a: Row, b: Row) {
    a.prevHash + t.render(a.columns) != b.prevHash + t.render(b.columns)
    && t.RowHash(a.prevHash, a.columns) == t.RowHash(b.prevHash, b.columns)
  }

  ghost predicate RenderedAlike(t: Tools, a: Row, b: Row) {
    a.columns != b.columns && t.render(a.columns) == t.render(b.columns)
  }

  /** A row whose hash is the all-zero value the chain starts from. */
  ghost predicate HashesToGenesis(t: Tools, a: Row) {
    t.RowHash(a.prevHash, a.columns) == Genesis()
  }

  /** One of the two logs exhibits a broken hash function or an ambiguous rendering. */
  ghost predicate Exhibits(t: Tools, a: seq<Row>, b: seq<Row>) {
    || (exists i, k :: 0 <= i < |a| && 0 <= k < |b| && (HashCollision(t, a[i], b[k]) || RenderedAlike(t, a[i], b[k])))
    || (exists i :: 0 <= i < |a| && HashesToGenesis(t, a[i]))
    || (exists k :: 0 <= k < |b| && HashesToGenesis(t, b[k]))
  }

  lemma ChainedAt(t: Tools, rows: seq<Row>, k: nat)
    requires Chained(t, rows) && k < |rows|
    ensures |rows[k].prevHash| == 32 && rows[k].prevHash == HashBefore(rows, k)
    ensures rows[k].hash == t.RowHash(rows[k].prevHash, rows[k].columns)
  {
    assert Sound(t, rows, k);
  }

  lemma SplitEqual(p: seq<Byte>, x: seq<Byte>, q: seq<Byte>, y: seq<Byte>)
    requires |p| == |q| && p + x == q + y
    ensures p == q && x == y
  {
    assert p == (p + x)[..|p|] && q == (q + y)[..|q|];
    assert x == (p + x)[|p|..] && y == (q + y)[|q|..];
  }

  lemma SameHashSameRow(t: Tools, a: Row, b: Row)
    requires |a.prevHash| == |b.prevHash| && a.hash == b.hash
    requires a.hash == t.RowHash(a.prevHash, a.columns) && b.hash == t.RowHash(b.prevHash, b.columns)
    requires !HashCollision(t, a, b) && !RenderedAlike(t, a, b)
    ensures a == b
  {
    SplitEqual(a.prevHash, t.render(a.columns), b.prevHash, t.render(b.columns));
  }

  lemma NeverGenesis(t: Tools, rows: seq<Row>, k: nat)
    requires Chained(t, rows) && k < |rows| && !HashesToGenesis(t, rows[k])
    ensures rows[k].hash != Genesis()
  {
    hide Genesis;
    ChainedAt(t, rows, k);
  }

  /** Equal hashes at two positions of two verified logs: the positions are the same and so is every row up
      to them, unless a log exhibits a failure of the hash. */
  lemma {:induction false} SameHashSameLog(t: Tools, a: seq<Row>, i: nat, b: seq<Row>, k: nat)
    requires Chained(t, a) && Chained(t, b)
    requires i < |a| && k < |b| && a[i].hash == b[k].hash
    requires !Exhibits(t, a, b)
    ensures i == k && a[..i + 1] == b[..k + 1]
    decreases i
  {
    hide Genesis, Fault, Chained, HashCollision, RenderedAlike, HashesToGenesis;
    ChainedAt(t, a, i);
    ChainedAt(t, b, k);
    assert !HashCollision(t, a[i], b[k]) && !RenderedAlike(t, a[i], b[k]);
    SameHashSameRow(t, a[i], b[k]);
    if i > 0 {
      NeverGenesis(t, a, i - 1);
    }
    if k > 0 {
      NeverGenesis(t, b, k - 1);
    }
    assert i > 0 <==> k > 0;
    if i > 0 {
      SameHashSameLog(t, a, i - 1, b, k - 1);
      assert a[..i + 1] == a[..i] + [a[i]] && b[..k + 1] == b[..k] + [b[k]];
    } else {
      assert a[..1] == [a[0]] && b[..1] == [b[0]];
    }
  }

  /** A checkpoint taken at the head of a verified log fixes that log: any later log that passes both
      verifications begins with exactly the same rows. */
  lemma CheckpointPinsLog(t: Tools, publicKey: seq<Byte>, a: seq<Row>, b: seq<Row>, taken: seq<Checkpoint>,
                          signingKey: seq<Byte>, keyId: Text, now: Time, sign: (seq<Byte>, seq<Byte>) -> seq<Byte>,
                          p: Checkpoint)
    requires Chained(t, a) && CheckpointOf(t, a, taken, signingKey, keyId, now, sign) == Taken(p)
    requires Chained(t, b) && CheckpointHolds(t, publicKey, b, p)
    requires !Exhibits(t, a, b)
    ensures a <= b
  {
    hide Genesis, Chained, Exhibits;
    var k :| 0 <= k && Covers(b, p, k);
    SameHashSameLog(t, a, |a| - 1, b, k);
    assert a[..|a|] == a;
  }
}
