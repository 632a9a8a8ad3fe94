/** An accepted upload extends the header history and the run of stored ciphertexts. */
module UploadStep {
  import opened Basics
  import opened Records
  import opened Tables
  import opened Operations
  import opened Retention
  import opened VaultInvariant
  import D = DeviceLog
  import H = Headers

  /** Under the invariant the header an upload is linked to is the last accepted one. */
  lemma PreviousIsLast(env: Env, v: Vault, h: Header, history: seq<Header>)
    requires env.Valid()
    requires |history| == v.currentRevision && HeadersOk(env, v.headers, history)
    requires PreviousHeader(v, h).Ok?
    ensures PreviousHeader(v, h).value == H.LastOr(None, history)
  {
    if v.currentRevision > 0 {
      var r := v.currentRevision;
      assert Retained(r, |history|, env.headerRetention);
      assert forall s | s in v.headers :: s <= r by {
        forall s | s in v.headers
          ensures s <= r
        {
          assert Retained(s, |history|, env.headerRetention);
        }
      }
      assert r in v.headers;
      assert HeaderRowOk(env.crypto, history, r, v.headers[r]);
    }
  }

  lemma ChainGrows(c: Crypto, l: D.List, history: seq<Header>, h: Header)
    requires ChainOk(c, l, history)
    requires H.VerifyHeader(c, l, H.LastOr(None, history), h).Ok?
    requires h.revision == |history| + 1
    ensures ChainOk(c, l, history + [h])
  {
    hide H.VerifyHeader, H.VerifyHeaderChain;
    H.ChainSnoc(c, l, None, history, h);
  }

  function HeadersAfter(env: Env, headers: map<U64, StoredHeader>, h: Header): map<U64, StoredHeader> {
    var all := headers[h.revision := StoredHeader(h, env.crypto.DigestOfHeader(h))];
    if h.revision > env.headerRetention then PruneHeaders(all, h.revision - env.headerRetention + 1) else all
  }

  /** Pruning leaves exactly the last `headerRetention` headers. */
  lemma HeadersGrow(env: Env, headers: map<U64, StoredHeader>, history: seq<Header>, h: Header)
    requires env.Valid()
    requires HeadersOk(env, headers, history)
    requires h.revision == |history| + 1
    ensures HeadersOk(env, HeadersAfter(env, headers, h), history + [h])
  {
    var after, longer := HeadersAfter(env, headers, h), history + [h];
    forall r: U64
      ensures r in after <==> Retained(r, |longer|, env.headerRetention)
    {
      assert r in headers <==> Retained(r, |history|, env.headerRetention);
    }
    forall r | r in after
      ensures HeaderRowOk(env.crypto, longer, r, after[r])
    {
      if r != h.revision {
        assert HeaderRowOk(env.crypto, history, r, headers[r]);
      }
    }
  }

  function BodiesAfter(kept: Bodies, previous: Option<Header>, h: Header, body: seq<Byte>): Bodies {
    var all: Bodies := kept[h.revision := body];
    if previous.Some? && previous.value.epoch < h.epoch then From(all, h.revision) else all
  }

  /** A body of the old history stays good under a longer one of the same epoch. */
  lemma BodyStays(c: Crypto, history: seq<Header>, h: Header, r: nat, body: seq<Byte>)
    requires BodyOk(c, history, r, body)
    requires h.epoch == history[|history| - 1].epoch
    ensures BodyOk(c, history + [h], r, body)
  {
    hide H.CiphertextMatches;
    assert (history + [h])[r - 1] == history[r - 1];
  }

  lemma NewBody(c: Crypto, l: D.List, history: seq<Header>, h: Header, body: seq<Byte>)
    requires H.VerifyHeader(c, l, H.LastOr(None, history), h).Ok?
    requires H.CiphertextMatches(c, h, body)
    ensures BodyOk(c, history + [h], |history| + 1, body)
  {
  }

  lemma EpochNotBack(c: Crypto, l: D.List, previous: Option<Header>, h: Header)
    requires H.VerifyHeader(c, l, previous, h).Ok?
    ensures previous.Some? ==> previous.value.epoch <= h.epoch
  {
  }

  /** Every body left is the one its header signed, in the epoch of the new header. */
  lemma BodiesStay(env: Env, bodies: Bodies, history: seq<Header>, h: Header, body: seq<Byte>, kept: Bodies, low: nat)
    requires BodiesOk(env, bodies, history)
    requires h.revision == |history| + 1 && RunEndsAt(kept, |history|)
    requires IsSuffix(bodies, kept, low, |body|, env.byteBudget)
    requires BodyOk(env.crypto, history + [h], h.revision, body)
    requires var previous := H.LastOr(None, history); previous.Some? ==> previous.value.epoch <= h.epoch
    ensures
      var after := BodiesAfter(kept, H.LastOr(None, history), h, body);
      forall r | r in after :: BodyOk(env.crypto, history + [h], r, after[r])
  {
    hide BodyOk, Total, IsSuffix;
    var c, previous := env.crypto, H.LastOr(None, history);
    var after := BodiesAfter(kept, previous, h, body);
    forall r | r in after
      ensures BodyOk(c, history + [h], r, after[r])
    {
      if r != h.revision {
        SuffixEntry(bodies, kept, low, |body|, env.byteBudget, r);
        LastEpoch(history, previous, h, r);
        BodyStays(c, history, h, r, bodies[r]);
      }
    }
  }

  lemma BodiesGrow(env: Env, l: D.List, bodies: Bodies, history: seq<Header>, h: Header, body: seq<Byte>, kept: Bodies)
    requires BodiesOk(env, bodies, history)
    requires h.revision == |history| + 1
    requires H.VerifyHeader(env.crypto, l, H.LastOr(None, history), h).Ok?
    requires H.CiphertextMatches(env.crypto, h, body)
    requires MakeRoom(bodies, |history|, |body|, env.byteBudget) == Ok(kept)
    ensures BodiesOk(env, BodiesAfter(kept, H.LastOr(None, history), h, body), history + [h])
  {
    hide H.VerifyHeader, BodyOk, Total, H.CiphertextMatches, Evict, IsSuffix, BodiesAfter, RunEndsAt, H.LastOr;
    var c, previous := env.crypto, H.LastOr(None, history);
    EpochNotBack(c, l, previous, h);
    NewBody(c, l, history, h, body);
    EvictKeepsSuffix(bodies, |history|, |body|, env.byteBudget);
    var low: nat :| IsSuffix(bodies, kept, low, |body|, env.byteBudget);
    BodiesStay(env, bodies, history, h, body, kept, low);
    RunAndTotal(kept, previous, h, body, |history|);
  }

  /** What is left is a run up to the new revision, and no larger than what was kept and the new body. */
  lemma RunAndTotal(kept: Bodies, previous: Option<Header>, h: Header, body: seq<Byte>, current: U64)
    requires RunEndsAt(kept, current) && h.revision == current + 1
    ensures
      var after := BodiesAfter(kept, previous, h, body);
      RunEndsAt(after, h.revision) && Total(after) <= Total(kept) + |body|
  {
    hide Total;
    var after := BodiesAfter(kept, previous, h, body);
    TotalOfPut(kept, h.revision, body);
    TotalOfKeep(kept[h.revision := body], after);
    RunGrows(kept, after, current, h.revision, previous.Some? && previous.value.epoch < h.epoch);
  }

  lemma SuffixEntry(bodies: Bodies, kept: Bodies, low: nat, incoming: nat, budget: nat, r: U64)
    requires IsSuffix(bodies, kept, low, incoming, budget)
    requires r in kept
    ensures r in bodies && kept[r] == bodies[r]
  {
  }

  lemma LastEpoch(history: seq<Header>, previous: Option<Header>, h: Header, r: nat)
    requires previous == H.LastOr(None, history)
    requires 1 <= r <= |history|
    requires previous.value.epoch == h.epoch
    ensures h.epoch == history[|history| - 1].epoch
  {
  }

  /** The run gains the new revision, or starts again with it alone. */
  lemma RunGrows(kept: Bodies, after: Bodies, current: U64, next: U64, raised: bool)
    requires RunEndsAt(kept, current) && next == current + 1
    requires forall r: U64 :: r in after <==> r == next || (r in kept && !raised)
    ensures RunEndsAt(after, next)
  {
  }

  /** What a successful upload has checked, and the vault it leaves. */
  lemma UploadFacts(env: Env, v: Vault, actor: Actor, h: Header, body: seq<Byte>)
      returns (previous: Option<Header>, kept: Bodies)
    requires UploadTx(env, v, actor, h, body).Ok?
    ensures PreviousHeader(v, h) == Ok(previous)
    ensures h.revision == v.currentRevision + 1
    ensures H.CiphertextMatches(env.crypto, h, body)
    ensures D.Replay(env.crypto, v.entries).Ok?
    ensures H.VerifyHeader(env.crypto, D.Replay(env.crypto, v.entries).value, previous, h).Ok?
    ensures MakeRoom(v.ciphertexts, v.currentRevision, |body|, env.byteBudget) == Ok(kept)
    ensures UploadTx(env, v, actor, h, body).value ==
            v.(currentRevision := h.revision, ciphertexts := BodiesAfter(kept, previous, h, body),
               headers := HeadersAfter(env, v.headers, h))
  {
    hide D.Replay, H.VerifyHeader, MakeRoom, PreviousHeader, H.ValidHeader, H.CiphertextMatches;
    previous := PreviousHeader(v, h).value;
    kept := MakeRoom(v.ciphertexts, v.currentRevision, |body|, env.byteBudget).value;
  }

  lemma HistoryGrows(env: Env, v: Vault, h: Header, body: seq<Byte>, previous: Option<Header>, kept: Bodies)
    requires env.Valid()
    requires HistoryOk(env, v.currentRevision, v.entries, v.headers, v.ciphertexts)
    requires PreviousHeader(v, h) == Ok(previous)
    requires h.revision == v.currentRevision + 1
    requires H.CiphertextMatches(env.crypto, h, body)
    requires H.VerifyHeader(env.crypto, D.Replay(env.crypto, v.entries).value, previous, h).Ok?
    requires MakeRoom(v.ciphertexts, v.currentRevision, |body|, env.byteBudget) == Ok(kept)
    ensures HistoryOk(env, h.revision, v.entries, HeadersAfter(env, v.headers, h), BodiesAfter(kept, previous, h, body))
  {
    hide D.Replay, H.VerifyHeader, MakeRoom, PreviousHeader, H.CiphertextMatches, ChainOk, HeadersOk, BodiesOk,
         HeadersAfter, BodiesAfter;
    var l := D.Replay(env.crypto, v.entries).value;
    var history :| HistoryIs(env, v.currentRevision, l, v.headers, v.ciphertexts, history);
    PreviousIsLast(env, v, h, history);
    ChainGrows(env.crypto, l, history, h);
    HeadersGrow(env, v.headers, history, h);
    BodiesGrow(env, l, v.ciphertexts, history, h, body, kept);
    assert HistoryIs(env, h.revision, l, HeadersAfter(env, v.headers, h), BodiesAfter(kept, previous, h, body),
                     history + [h]);
  }

  lemma UploadKeeps(env: Env, v: Vault, actor: Actor, h: Header, body: seq<Byte>)
    requires env.Valid() && VaultOk(env, v)
    requires UploadTx(env, v, actor, h, body).Ok?
    ensures VaultOk(env, UploadTx(env, v, actor, h, body).value)
  {
    hide UploadTx, LogOk, RolesOk, NoneLockedOut, PackagesOk, HistoryOk, CheckpointsOk, D.Replay, H.VerifyHeader,
         MakeRoom,
         PreviousHeader, H.CiphertextMatches, HeadersAfter, BodiesAfter;
    var previous, kept := UploadFacts(env, v, actor, h, body);
    HistoryGrows(env, v, h, body, previous, kept);
  }

  /** Uploads are refused for space exactly when the current body and the new one exceed the budget; with
      room for two largest bodies, as in the default configuration, never. */
  lemma UploadQuota(env: Env, v: Vault, h: Header, body: seq<Byte>)
    requires VaultOk(env, v)
    ensures MakeRoom(v.ciphertexts, v.currentRevision, |body|, env.byteBudget).Ok? <==>
            Unevictable(v.ciphertexts, v.currentRevision) + |body| <= env.byteBudget
    ensures H.CiphertextMatches(env.crypto, h, body) && H.ValidHeader(env.crypto, h)
            && 2 * H.MAX_CIPHERTEXT_BYTES <= env.byteBudget ==>
            MakeRoom(v.ciphertexts, v.currentRevision, |body|, env.byteBudget).Ok?
  {
    hide LogOk, RolesOk, NoneLockedOut, PackagesOk, CheckpointsOk, D.Replay, ChainOk, HeadersOk, MakeRoom;
    var l := D.Replay(env.crypto, v.entries).value;
    var history :| HistoryIs(env, v.currentRevision, l, v.headers, v.ciphertexts, history);
    MakeRoomSucceedsIff(v.ciphertexts, v.currentRevision, |body|, env.byteBudget);
    if v.currentRevision in v.ciphertexts {
      assert BodyOk(env.crypto, history, v.currentRevision, v.ciphertexts[v.currentRevision]);
    }
  }
}
