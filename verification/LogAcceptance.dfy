/** Which device lists verify, read off the log lines alone: no member table, no column, no step of the replay. */
module LogAcceptance {
  import opened Basics
  import opened Records
  import opened DeviceLog

  // ---------------------------------------------------------------------------------------------
  // Entries by their shape

  /** What an entry of some kind carries: the lengths its keys may have, whether it has a label, whether it speaks of
      its own signer, and whether it may set a snapshot floor. */
  datatype Shape = Shape(signing: set<nat>, package: set<nat>, labelled: bool, own: bool, floored: bool)

  function ShapeOf(kind: Text): Option<Shape> {
    if kind == CREATE then Some(Shape({32}, {32, 1216}, true, false, false))
    else if kind == ADD then Some(Shape({32}, {32, 1216}, true, false, true))
    else if kind == REMOVE then Some(Shape({}, {}, false, false, false))
    else if kind == KEY then Some(Shape({}, {1216}, false, true, false))
    else if kind == ROTATE then Some(Shape({}, {}, false, true, false))
    else None
  }

  /** The text of that many bytes, or no text if no length is allowed. */
  predicate Fits(c: Crypto, value: Text, lengths: set<nat>) {
    if lengths == {} then value == [] else c.decode(value).Some? && |c.decode(value).value| in lengths
  }

  predicate WellShaped(c: Crypto, e: Entry) {
    && (forall id | id in {e.vaultId, e.signer, e.subject} :: OpaqueId(id))
    && 0 < e.index && 0 < e.epochAfter
    && (if e.index == 1 then e.previousDigest == [] else e.previousDigest != [] && Fits(c, e.previousDigest, {32}))
    && Fits(c, e.signature, {64})
    && ShapeOf(e.kind).Some?
    && var s := ShapeOf(e.kind).value;
       && Fits(c, e.signingKey, s.signing) && Fits(c, e.packageKey, s.package)
       && (if s.labelled then c.decode(e.sealedLabel).Some? && 40 <= |c.decode(e.sealedLabel).value| <= 256
           else e.sealedLabel == [])
       && (s.own ==> e.signer == e.subject)
       && (s.floored || e.snapshotFloor == 0)
  }

  lemma ValidIsWellShaped(c: Crypto, e: Entry)
    ensures ValidEntry(c, e) <==> WellShaped(c, e)
  {
    KindsDiffer();
    hide OpaqueId;
    assert e.vaultId in {e.vaultId, e.signer, e.subject};
    assert e.signer in {e.vaultId, e.signer, e.subject};
    assert e.subject in {e.vaultId, e.signer, e.subject};
  }

  // ---------------------------------------------------------------------------------------------
  // Entries by the log before them

  /** The devices the log makes members. */
  function Members(entries: seq<Entry>): set<Text> {
    set k | 0 <= k < |entries| && Holder(entries, entries[k].subject).Some? :: entries[k].subject
  }

  function LogEpoch(entries: seq<Entry>): nat {
    if entries == [] then 0 else 1 + RekeyCount(entries)
  }

  ghost predicate HasJoined(entries: seq<Entry>, d: Text) {
    exists k :: 0 <= k < |entries| && Joins(entries[k], d)
  }

  /** The first entry founds the vault: its subject creates it, under its own key and in epoch one. */
  ghost predicate Founds(c: Crypto, e: Entry) {
    && e.kind == CREATE && e.signer == e.subject && e.epochAfter == 1
    && c.SignatureHolds(e.signingKey, EntrySigning(e), e.signature)
  }

  /** The entry follows the last one and is signed with the key of a member. */
  ghost predicate Linked(c: Crypto, entries: seq<Entry>, e: Entry)
    requires entries != []
  {
    && e.vaultId == entries[0].vaultId
    && e.previousDigest == c.DigestOfEntry(entries[|entries| - 1])
    && Holder(entries, e.signer).Some?
    && c.SignatureHolds(Holder(entries, e.signer).value.signingKey, EntrySigning(e), e.signature)
  }

  /** What each kind of entry needs of the log before it. */
  ghost predicate MayHappen(c: Crypto, entries: seq<Entry>, e: Entry) {
    || (e.kind == ADD && !HasJoined(entries, e.subject) && e.epochAfter == LogEpoch(entries) && |Members(entries)| < 10)
    || (e.kind == REMOVE && Holder(entries, e.subject).Some? && e.epochAfter == LogEpoch(entries) + 1)
    || (e.kind == KEY && e.epochAfter == LogEpoch(entries) && Holder(entries, e.signer).Some?
        && c.Decodes(Holder(entries, e.signer).value.packageKey, 32))
    || (e.kind == ROTATE && e.epochAfter == LogEpoch(entries) + 1)
  }

  ghost predicate Continues(c: Crypto, entries: seq<Entry>, e: Entry) {
    && WellShaped(c, e) && e.index == |entries| + 1
    && if entries == [] then Founds(c, e) else Linked(c, entries, e) && MayHappen(c, entries, e)
  }

  // ---------------------------------------------------------------------------------------------
  // The list against the log

  lemma {:induction false} HoldersAreSubjects(entries: seq<Entry>, d: Text)
    requires Holder(entries, d).Some?
    ensures exists k :: 0 <= k < |entries| && entries[k].subject == d
  {
    var init := entries[..|entries| - 1];
    if entries[|entries| - 1].subject != d {
      HoldersAreSubjects(init, d);
      var k :| 0 <= k < |init| && init[k].subject == d;
      assert entries[k].subject == d;
    }
  }

  lemma CurrentAreMembers(c: Crypto, entries: seq<Entry>)
    requires Replay(c, entries).Ok?
    ensures Replay(c, entries).value.Current() == Members(entries)
  {
    hide Replay, Holder;
    var l := Replay(c, entries).value;
    forall d
      ensures d in l.Current() <==> d in Members(entries)
    {
      CurrentIsHolder(c, entries, d);
      if Holder(entries, d).Some? {
        HoldersAreSubjects(entries, d);
      }
    }
  }

  /** What the verified list knows of its head is what the log says. */
  lemma {:induction false} ListAtHead(c: Crypto, entries: seq<Entry>)
    requires Replay(c, entries).Ok?
    ensures
      var l := Replay(c, entries).value;
      && l.Head() == |entries| && l.Epoch() == LogEpoch(entries)
      && (entries != [] ==>
            l.vaultId == entries[0].vaultId && l.HeadDigest() == c.DigestOfEntry(entries[|entries| - 1]))
  {
    hide Extend, RekeyCount, EntrySigned, ValidEntry;
    ReplayWellFormed(c, entries);
    if entries != [] {
      var init, e := entries[..|entries| - 1], entries[|entries| - 1];
      ListAtHead(c, init);
      ExtendFacts(c, Replay(c, init).value, e);
      EpochCountsRekeys(c, entries);
    }
  }

  /** A list whose answers about the head, the signer and the subject of an entry are those of the log. */
  ghost predicate Agrees(c: Crypto, l: List, entries: seq<Entry>, e: Entry) {
    && entries != [] && WellFormed(l) && l.Head() == |entries| && l.Epoch() == LogEpoch(entries)
    && l.vaultId == entries[0].vaultId && l.HeadDigest() == c.DigestOfEntry(entries[|entries| - 1])
    && l.Current() == Members(entries)
    && StandingNow(l, e.signer) == Holder(entries, e.signer)
    && StandingNow(l, e.subject) == Holder(entries, e.subject)
    && (e.subject in l.members <==> HasJoined(entries, e.subject))
  }

  /** For a linked entry its kind decides. */
  lemma KindDecides(c: Crypto, l: List, entries: seq<Entry>, e: Entry)
    requires Agrees(c, l, entries, e)
    requires ValidEntry(c, e) && e.index == |entries| + 1 && Linked(c, entries, e)
    ensures Extend(c, l, e).Ok? <==> MayHappen(c, entries, e)
    ensures Extend(c, l, e).Err? ==> Extend(c, l, e).error == Broken
  {
    hide Holder, HasJoined, Members, LogEpoch, WellFormed, ValidContents;
    KindsDiffer();
  }

  /** One extension, over any such list. */
  lemma ExtendIff(c: Crypto, l: List, entries: seq<Entry>, e: Entry)
    requires Agrees(c, l, entries, e)
    ensures Extend(c, l, e).Ok? <==> Continues(c, entries, e)
    ensures Extend(c, l, e).Err? ==> (Extend(c, l, e).error == Invalid <==> !ValidEntry(c, e))
  {
    ValidIsWellShaped(c, e);
    hide WellShaped;
    if ValidEntry(c, e) && e.index == |entries| + 1 && Linked(c, entries, e) {
      hide Extend, Agrees, ValidEntry, Linked, MayHappen;
      KindDecides(c, l, entries, e);
    } else {
      hide Holder, HasJoined, Members, LogEpoch, WellFormed, ValidEntry, MayHappen, ExtendAdd, ExtendRemove, ExtendKey,
           ExtendRotate;
    }
  }

  /** A verified list takes one more entry if and only if the entry continues the log. */
  lemma AppendIff(c: Crypto, entries: seq<Entry>, e: Entry)
    requires Replay(c, entries).Ok?
    ensures Replay(c, entries + [e]).Ok? <==> Continues(c, entries, e)
    ensures Replay(c, entries + [e]).Err? ==> (Replay(c, entries + [e]).error == Invalid <==> !WellShaped(c, e))
  {
    ReplaySnoc(c, entries, e);
    ValidIsWellShaped(c, e);
    hide WellShaped;
    if entries != [] {
      hide Extend, Replay, Holder, Members, LogEpoch, HasJoined, Continues, ValidEntry;
      var l := Replay(c, entries).value;
      ReplayWellFormed(c, entries);
      ListAtHead(c, entries);
      CurrentAreMembers(c, entries);
      CurrentIsHolder(c, entries, e.signer);
      CurrentIsHolder(c, entries, e.subject);
      MembersHaveJoined(c, entries, e.subject);
      assert Agrees(c, l, entries, e);
      ExtendIff(c, l, entries, e);
    }
  }

  /** A list verifies if and only if every entry continues the ones before it. */
  lemma {:induction false} VerifiesIff(c: Crypto, entries: seq<Entry>)
    ensures Replay(c, entries).Ok? <==> forall k | 0 <= k < |entries| :: Continues(c, entries[..k], entries[k])
    decreases |entries|
  {
    hide Extend, Continues;
    if entries != [] {
      var init, e := entries[..|entries| - 1], entries[|entries| - 1];
      VerifiesIff(c, init);
      assert init + [e] == entries;
      forall k | 0 <= k < |init|
        ensures init[..k] == entries[..k] && init[k] == entries[k]
      {
      }
      if Replay(c, init).Ok? {
        AppendIff(c, init, e);
      } else {
        ReplaySnoc(c, init, e);
      }
      assert (forall k | 0 <= k < |entries| :: Continues(c, entries[..k], entries[k])) <==>
             (forall k | 0 <= k < |init| :: Continues(c, init[..k], init[k])) && Continues(c, init, e);
    }
  }

  /** Every verified list begins with a creation by its own subject, signed with the key it enters. */
  lemma FounderSigned(c: Crypto, entries: seq<Entry>)
    requires Replay(c, entries).Ok? && entries != []
    ensures Founds(c, entries[0]) && entries[0].index == 1
  {
    hide Replay;
    VerifiesIff(c, entries);
    assert Continues(c, entries[..0], entries[0]);
  }
}
