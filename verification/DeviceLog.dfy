/** The signed, hash-chained membership log of a vault: its replay, its historical lookups, and what a
    digest of it pins. */
module DeviceLog {
  import opened Basics
  import opened Records

  const CREATE: Text := Ascii("create")
  const ADD: Text := Ascii("add")
  const REMOVE: Text := Ascii("remove")
  const KEY: Text := Ascii("key")
  const ROTATE: Text := Ascii("rotate")

  const MAX_DEVICES: nat := 10
  const X25519_KEY_BYTES: nat := 32
  const XWING_KEY_BYTES: nat := 1216
  const DIGEST_BYTES: nat := 32

  /** An entry is malformed, or it does not continue the list. */
  datatype Fault = Invalid | Broken

  datatype KeyChange = KeyChange(index: U64, previous: Text)

  datatype Member = Member(
    deviceId: Text, signingKey: Text, packageKey: Text, sealedLabel: Text,
    addedIndex: U64, removedIndex: U64, replaced: seq<KeyChange>)

  datatype List = List(vaultId: Text, members: map<Text, Member>, digests: seq<Text>, epochs: seq<U64>) {
    function Head(): nat {
      |digests|
    }

    function HeadDigest(): Text {
      if digests == [] then [] else digests[|digests| - 1]
    }

    function Epoch(): U64 {
      if epochs == [] then 0 else epochs[|epochs| - 1]
    }

    function DigestAt(index: U64): Option<Text> {
      if index == 0 || index > |digests| then None else Some(digests[index - 1])
    }

    function EpochAt(index: U64): Option<U64> {
      if index == 0 || index > |epochs| then None else Some(epochs[index - 1])
    }

    function Current(): set<Text> {
      set d | d in members && members[d].removedIndex == 0
    }

    function MemberAt(deviceId: Text, index: U64): Option<Member> {
      if deviceId !in members || !PresentAt(members[deviceId], index) then
        None
      else
        var m := members[deviceId];
        Some(m.(packageKey := KeyAt(m.replaced, m.packageKey, index)))
    }

    function Append(digest: Text, epoch: U64): List {
      this.(digests := digests + [digest], epochs := epochs + [epoch])
    }
  }

  const NEW_LIST := List([], map[], [], [])

  predicate PresentAt(m: Member, index: U64) {
    m.addedIndex <= index && (m.removedIndex == 0 || index < m.removedIndex)
  }

  /** The key in force at an index: the one that the first later replacement displaced. */
  function KeyAt(replaced: seq<KeyChange>, latest: Text, index: U64): Text {
    if replaced == [] then latest
    else if index < replaced[0].index then replaced[0].previous
    else KeyAt(replaced[1..], latest, index)
  }

  // ---------------------------------------------------------------------------------------------
  // Validation

  predicate OpaqueIdChar(b: Byte) {
    65 <= b <= 90 || 97 <= b <= 122 || 48 <= b <= 57 || b == 95 || b == 45
  }

  predicate OpaqueId(t: Text) {
    16 <= |t| <= 128 && forall i | 0 <= i < |t| :: OpaqueIdChar(t[i])
  }

  predicate ValidDigest(c: Crypto, t: Text) {
    c.Decodes(t, DIGEST_BYTES)
  }

  predicate ValidContents(c: Crypto, e: Entry) {
    if e.kind == CREATE || e.kind == ADD then
      && c.Decodes(e.signingKey, 32)
      && (c.Decodes(e.packageKey, X25519_KEY_BYTES) || c.Decodes(e.packageKey, XWING_KEY_BYTES))
      && c.DecodesWithin(e.sealedLabel, 40, 256)
    else if e.kind == REMOVE then
      e.signingKey == [] && e.packageKey == [] && e.sealedLabel == []
    else if e.kind == KEY then
      && e.signer == e.subject && e.signingKey == [] && e.sealedLabel == []
      && c.Decodes(e.packageKey, XWING_KEY_BYTES)
    else if e.kind == ROTATE then
      e.signer == e.subject && e.signingKey == [] && e.packageKey == [] && e.sealedLabel == []
    else
      false
  }

  predicate ValidEntry(c: Crypto, e: Entry) {
    && OpaqueId(e.vaultId) && OpaqueId(e.signer) && OpaqueId(e.subject)
    && e.index != 0 && e.epochAfter != 0
    && (e.index == 1 <==> e.previousDigest == [])
    && (e.previousDigest != [] ==> ValidDigest(c, e.previousDigest))
    && ValidContents(c, e)
    && (e.kind != ADD ==> e.snapshotFloor == 0)
    && c.Decodes(e.signature, 64)
  }

  predicate EntrySigned(c: Crypto, e: Entry, key: Text) {
    c.SignatureHolds(key, EntrySigning(e), e.signature)
  }

  // ---------------------------------------------------------------------------------------------
  // Replay

  function MemberFromEntry(e: Entry): Member {
    Member(e.subject, e.signingKey, e.packageKey, e.sealedLabel, e.index, 0, [])
  }

  function ExtendCreate(c: Crypto, l: List, e: Entry): Result<List, Fault> {
    if e.kind != CREATE || e.signer != e.subject || e.epochAfter != 1 || e.snapshotFloor != 0 then
      Err(Broken)
    else if !EntrySigned(c, e, e.signingKey) then
      Err(Broken)
    else
      Ok(l.(vaultId := e.vaultId, members := l.members[e.subject := MemberFromEntry(e)])
          .Append(c.DigestOfEntry(e), 1))
  }

  function ExtendAdd(c: Crypto, l: List, e: Entry): Result<List, Fault> {
    if e.subject in l.members || e.epochAfter != l.Epoch() || |l.Current()| >= MAX_DEVICES then
      Err(Broken)
    else
      Ok(l.(members := l.members[e.subject := MemberFromEntry(e)])
          .Append(c.DigestOfEntry(e), e.epochAfter))
  }

  function ExtendRemove(c: Crypto, l: List, e: Entry): Result<List, Fault> {
    if e.subject !in l.members || l.members[e.subject].removedIndex != 0 then
      Err(Broken)
    else if CheckedNext(l.Epoch()) != Some(e.epochAfter) then
      Err(Broken)
    else
      Ok(l.(members := l.members[e.subject := l.members[e.subject].(removedIndex := e.index)])
          .Append(c.DigestOfEntry(e), e.epochAfter))
  }

  function ExtendKey(c: Crypto, l: List, e: Entry, signer: Member): Result<List, Fault> {
    if e.epochAfter != l.Epoch() || !c.Decodes(signer.packageKey, X25519_KEY_BYTES) then
      Err(Broken)
    else
      var changed := signer.(
        replaced := signer.replaced + [KeyChange(e.index, signer.packageKey)],
        packageKey := e.packageKey);
      Ok(l.(members := l.members[signer.deviceId := changed])
          .Append(c.DigestOfEntry(e), e.epochAfter))
  }

  function ExtendRotate(c: Crypto, l: List, e: Entry): Result<List, Fault> {
    if CheckedNext(l.Epoch()) != Some(e.epochAfter) then
      Err(Broken)
    else
      Ok(l.Append(c.DigestOfEntry(e), e.epochAfter))
  }

  /** One entry on top of a verified list. */
  function Extend(c: Crypto, l: List, e: Entry): Result<List, Fault> {
    if !ValidEntry(c, e) then
      Err(Invalid)
    else if e.index != l.Head() + 1 then
      Err(Broken)
    else if e.index == 1 then
      ExtendCreate(c, l, e)
    else if e.vaultId != l.vaultId || e.previousDigest != l.HeadDigest() then
      Err(Broken)
    else if e.signer !in l.members || l.members[e.signer].removedIndex != 0 then
      Err(Broken)
    else if !EntrySigned(c, e, l.members[e.signer].signingKey) then
      Err(Broken)
    else if e.kind == ADD then
      ExtendAdd(c, l, e)
    else if e.kind == REMOVE then
      ExtendRemove(c, l, e)
    else if e.kind == KEY then
      ExtendKey(c, l, e, l.members[e.signer])
    else if e.kind == ROTATE then
      ExtendRotate(c, l, e)
    else
      Err(Broken)
  }

  /** Verifies a whole list from the empty one; the first fault stops it. */
  function Replay(c: Crypto, entries: seq<Entry>): Result<List, Fault> {
    if entries == [] then
      Ok(NEW_LIST)
    else
      var l :- Replay(c, entries[..|entries| - 1]);
      Extend(c, l, entries[|entries| - 1])
  }

  lemma KindsDiffer()
    ensures CREATE != ADD && CREATE != REMOVE && CREATE != KEY && CREATE != ROTATE
    ensures ADD != REMOVE && ADD != KEY && ADD != ROTATE
    ensures REMOVE != KEY && REMOVE != ROTATE && KEY != ROTATE
  {
    assert CREATE[0] == 'c' as int && ADD[0] == 'a' as int && KEY[0] == 'k' as int;
    assert REMOVE[0] == 'r' as int && ROTATE[0] == 'r' as int;
    assert REMOVE[2] == 'm' as int && ROTATE[2] == 't' as int;
  }

  lemma {:induction false} ReplayPrefix(c: Crypto, entries: seq<Entry>, i: nat)
    requires i <= |entries|
    requires Replay(c, entries).Ok?
    ensures Replay(c, entries[..i]).Ok?
    decreases |entries|
  {
    if i == |entries| {
      assert entries[..i] == entries;
    } else {
      var init := entries[..|entries| - 1];
      ReplayPrefix(c, init, i);
      assert init[..i] == entries[..i];
    }
  }

  lemma ReplaySnoc(c: Crypto, entries: seq<Entry>, e: Entry)
    ensures Replay(c, entries).Ok? ==> Replay(c, entries + [e]) == Extend(c, Replay(c, entries).value, e)
    ensures Replay(c, entries).Err? ==> Replay(c, entries + [e]) == Replay(c, entries)
  {
    assert (entries + [e])[..|entries|] == entries;
  }

  /** A fault in a prefix is the fault of the whole list. */
  lemma {:induction false} ReplayStops(c: Crypto, entries: seq<Entry>, i: nat)
    requires i <= |entries|
    requires Replay(c, entries[..i]).Err?
    ensures Replay(c, entries) == Replay(c, entries[..i])
    decreases |entries|
  {
    if i == |entries| {
      assert entries[..i] == entries;
    } else {
      var init := entries[..|entries| - 1];
      assert init[..i] == entries[..i];
      ReplayStops(c, init, i);
    }
  }

  // ---------------------------------------------------------------------------------------------
  // What a verified list looks like

  ghost predicate Ascending(replaced: seq<KeyChange>) {
    forall i, j | 0 <= i < j < |replaced| :: replaced[i].index < replaced[j].index
  }

  ghost predicate WellFormedMember(m: Member, head: nat) {
    && 1 <= m.addedIndex <= head
    && (m.removedIndex == 0 || m.addedIndex < m.removedIndex <= head)
    && Ascending(m.replaced)
    && (forall i | 0 <= i < |m.replaced| :: m.addedIndex < m.replaced[i].index <= head)
  }

  ghost predicate WellFormed(l: List) {
    && |l.digests| == |l.epochs|
    && (forall d | d in l.members :: l.members[d].deviceId == d && WellFormedMember(l.members[d], l.Head()))
  }

  /** What every successful extension has checked and does to the columns of the list. */
  lemma ExtendFacts(c: Crypto, l: List, e: Entry)
    requires Extend(c, l, e).Ok?
    ensures
      var n := Extend(c, l, e).value;
      && ValidEntry(c, e)
      && e.index == l.Head() + 1
      && n.digests == l.digests + [c.DigestOfEntry(e)]
      && n.epochs == l.epochs + [e.epochAfter]
      && n.vaultId == e.vaultId
      && (l.Head() == 0 ==> e.epochAfter == 1 && e.kind == CREATE)
      && (l.Head() > 0 ==>
            && e.vaultId == l.vaultId && e.previousDigest == l.HeadDigest()
            && e.signer in l.Current() && EntrySigned(c, e, l.members[e.signer].signingKey)
            && e.kind != CREATE
            && e.epochAfter == l.Epoch() + (if e.kind == REMOVE || e.kind == ROTATE then 1 else 0))
  {
    KindsDiffer();
  }

  lemma ExtendKeepsWellFormed(c: Crypto, l: List, e: Entry)
    requires WellFormed(l)
    requires Extend(c, l, e).Ok?
    ensures WellFormed(Extend(c, l, e).value)
    ensures Extend(c, l, e).value.Head() == l.Head() + 1
    ensures e.index == l.Head() + 1
  {
    var n := Extend(c, l, e).value;
    forall d | d in n.members
      ensures n.members[d].deviceId == d && WellFormedMember(n.members[d], n.Head())
    {
      if d in l.members {
        assert WellFormedMember(l.members[d], l.Head());
      }
    }
  }

  lemma {:induction false} ReplayWellFormed(c: Crypto, entries: seq<Entry>)
    requires Replay(c, entries).Ok?
    ensures WellFormed(Replay(c, entries).value)
    ensures Replay(c, entries).value.Head() == |entries|
    ensures forall k | 0 <= k < |entries| :: entries[k].index == k + 1
  {
    hide Extend;
    if entries != [] {
      var init := entries[..|entries| - 1];
      ReplayWellFormed(c, init);
      ExtendKeepsWellFormed(c, Replay(c, init).value, entries[|entries| - 1]);
      forall k | 0 <= k < |entries|
        ensures entries[k].index == k + 1
      {
        if k < |init| {
          assert init[k] == entries[k];
        }
      }
    }
  }

  // ---------------------------------------------------------------------------------------------
  // Historical lookups

  /** What a lookup tells about a device, apart from when it left and which keys it used before. */
  datatype Standing = Standing(
    deviceId: Text, signingKey: Text, packageKey: Text, sealedLabel: Text, addedIndex: U64)

  function StandingOf(m: Member): Standing {
    Standing(m.deviceId, m.signingKey, m.packageKey, m.sealedLabel, m.addedIndex)
  }

  function StandingAt(l: List, d: Text, index: U64): Option<Standing> {
    match l.MemberAt(d, index)
    case None => None
    case Some(m) => Some(StandingOf(m))
  }

  function StandingNow(l: List, d: Text): Option<Standing> {
    if d in l.Current() then Some(StandingOf(l.members[d])) else None
  }

  /** Membership read off the log alone: an add enters a device, a removal ends it, a key entry changes
      its package key, and nothing else touches it. No index, tombstone or key history is involved. */
  function Holder(entries: seq<Entry>, d: Text): Option<Standing> {
    if entries == [] then
      None
    else
      var e := entries[|entries| - 1];
      var before := Holder(entries[..|entries| - 1], d);
      if e.subject != d then before
      else if e.kind == CREATE || e.kind == ADD then
        Some(Standing(d, e.signingKey, e.packageKey, e.sealedLabel, e.index))
      else if e.kind == REMOVE then None
      else if e.kind == KEY && before.Some? then Some(before.value.(packageKey := e.packageKey))
      else before
  }

  lemma {:induction false} KeyAtSnoc(replaced: seq<KeyChange>, change: KeyChange, latest: Text, index: U64)
    requires index < change.index
    ensures KeyAt(replaced + [change], latest, index) == KeyAt(replaced, change.previous, index)
  {
    var all := replaced + [change];
    if replaced != [] && index >= replaced[0].index {
      assert all[1..] == replaced[1..] + [change];
      KeyAtSnoc(replaced[1..], change, latest, index);
    }
  }

  lemma {:induction false} KeyAtLatest(replaced: seq<KeyChange>, latest: Text, index: U64)
    requires forall i | 0 <= i < |replaced| :: replaced[i].index <= index
    ensures KeyAt(replaced, latest, index) == latest
  {
    if replaced != [] {
      KeyAtLatest(replaced[1..], latest, index);
    }
  }

  /** At the head, a lookup sees the current members. */
  lemma StandingAtHead(l: List, d: Text)
    requires WellFormed(l) && l.Head() < U64_LIMIT
    ensures StandingAt(l, d, l.Head()) == StandingNow(l, d)
  {
    if d in l.members {
      var m := l.members[d];
      assert WellFormedMember(m, l.Head());
      KeyAtLatest(m.replaced, m.packageKey, l.Head());
    }
  }

  /** What a removal, a key replacement or a rotation leaves of its subject. */
  function Changed(m: Member, e: Entry): Member {
    if e.kind == REMOVE then m.(removedIndex := e.index)
    else if e.kind == KEY then
      m.(replaced := m.replaced + [KeyChange(e.index, m.packageKey)], packageKey := e.packageKey)
    else m
  }

  /** The member an entry acts on, and what it leaves there. */
  lemma ExtendMember(c: Crypto, l: List, e: Entry, d: Text)
    requires WellFormed(l)
    requires Extend(c, l, e).Ok?
    ensures
      var n := Extend(c, l, e).value;
      && (e.subject != d ==> (d in n.members <==> d in l.members))
      && (e.subject != d && d in l.members ==> n.members[d] == l.members[d])
      && (e.subject == d ==> d in n.members)
      && (e.subject == d && (e.kind == CREATE || e.kind == ADD) ==>
            (l.Head() > 0 ==> d !in l.members) && n.members[d] == MemberFromEntry(e))
      && (e.subject == d && e.kind != CREATE && e.kind != ADD ==>
            && l.Head() > 0
            && d in l.Current()
            && n.members[d] == Changed(l.members[d], e))
  {
    hide EntrySigned, WellFormedMember;
    KindsDiffer();
  }

  /** The member table after an entry on a non-empty list, case by case. */
  lemma ExtendMembers(c: Crypto, l: List, e: Entry)
    requires WellFormed(l) && l.Head() > 0
    requires Extend(c, l, e).Ok?
    ensures e.signer in l.Current()
    ensures e.kind == ADD ==>
              e.subject !in l.members && Extend(c, l, e).value.members == l.members[e.subject := MemberFromEntry(e)]
    ensures e.kind != ADD ==>
              && e.subject in l.Current()
              && Extend(c, l, e).value.members == l.members[e.subject := Changed(l.members[e.subject], e)]
    ensures e.kind == KEY || e.kind == ROTATE ==> e.signer == e.subject
  {
    hide EntrySigned, WellFormedMember;
    KindsDiffer();
  }

  /** Extending a list changes no digest and no epoch at an index the list already had. */
  lemma ExtendKeepsColumns(c: Crypto, l: List, e: Entry, index: U64)
    requires |l.digests| == |l.epochs|
    requires Extend(c, l, e).Ok?
    requires index <= l.Head()
    ensures Extend(c, l, e).value.DigestAt(index) == l.DigestAt(index)
    ensures Extend(c, l, e).value.EpochAt(index) == l.EpochAt(index)
    ensures l.Head() > 0 ==> Extend(c, l, e).value.vaultId == l.vaultId
  {
    hide Extend;
    ExtendFacts(c, l, e);
  }

  /** Extending a list changes no membership lookup at an index the list already had. */
  lemma ExtendKeepsHistory(c: Crypto, l: List, e: Entry, d: Text, index: U64)
    requires WellFormed(l)
    requires Extend(c, l, e).Ok?
    requires 1 <= index <= l.Head()
    ensures StandingAt(Extend(c, l, e).value, d, index) == StandingAt(l, d, index)
  {
    hide Extend, ValidEntry;
    ExtendFacts(c, l, e);
    ExtendMember(c, l, e, d);
    if d in l.members {
      var m := l.members[d];
      assert WellFormedMember(m, l.Head());
      if e.subject == d && e.kind == KEY {
        KeyAtSnoc(m.replaced, KeyChange(e.index, m.packageKey), e.packageKey, index);
      }
    }
  }

  /** One entry acts on the current members exactly as the log line reads. */
  lemma ExtendMovesStanding(c: Crypto, l: List, entries: seq<Entry>, e: Entry, d: Text)
    requires WellFormed(l)
    requires Extend(c, l, e).Ok?
    requires StandingNow(l, d) == Holder(entries, d)
    ensures StandingNow(Extend(c, l, e).value, d) == Holder(entries + [e], d)
  {
    hide Extend, ValidEntry;
    KindsDiffer();
    ExtendFacts(c, l, e);
    ExtendMember(c, l, e, d);
    assert (entries + [e])[..|entries|] == entries;
  }

  lemma {:induction false} CurrentIsHolder(c: Crypto, entries: seq<Entry>, d: Text)
    requires Replay(c, entries).Ok?
    ensures StandingNow(Replay(c, entries).value, d) == Holder(entries, d)
  {
    hide Extend;
    if entries != [] {
      var init, e := entries[..|entries| - 1], entries[|entries| - 1];
      CurrentIsHolder(c, init, d);
      ReplayWellFormed(c, init);
      ExtendMovesStanding(c, Replay(c, init).value, init, e, d);
      assert init + [e] == entries;
    }
  }

  /** A lookup at index i in a verified list is the current membership of the list cut off after i
      entries, and what the first i log lines say. */
  lemma {:induction false} MemberAtIsPrefixReplay(c: Crypto, entries: seq<Entry>, d: Text, index: U64)
    requires Replay(c, entries).Ok?
    requires 1 <= index <= |entries|
    ensures Replay(c, entries[..index]).Ok?
    ensures StandingAt(Replay(c, entries).value, d, index) == StandingNow(Replay(c, entries[..index]).value, d)
    ensures StandingAt(Replay(c, entries).value, d, index) == Holder(entries[..index], d)
    decreases |entries|
  {
    hide Extend;
    ReplayWellFormed(c, entries);
    if index == |entries| {
      assert entries[..index] == entries;
      StandingAtHead(Replay(c, entries).value, d);
      CurrentIsHolder(c, entries, d);
    } else {
      var init, e := entries[..|entries| - 1], entries[|entries| - 1];
      ReplayWellFormed(c, init);
      MemberAtIsPrefixReplay(c, init, d, index);
      ExtendKeepsHistory(c, Replay(c, init).value, e, d, index);
      assert init[..index] == entries[..index];
    }
  }

  /** The entry brings its subject into the vault. */
  predicate Joins(e: Entry, d: Text) {
    e.subject == d && (e.kind == CREATE || e.kind == ADD)
  }

  /** A member's join index names the entry that added it, so no two members share one. */
  lemma {:induction false} AddedIndexNames(c: Crypto, entries: seq<Entry>, d: Text)
    requires Replay(c, entries).Ok?
    requires d in Replay(c, entries).value.members
    ensures
      var added := Replay(c, entries).value.members[d].addedIndex;
      1 <= added <= |entries| && Joins(entries[added - 1], d)
  {
    hide Extend, WellFormed, ValidEntry, EntrySigned;
    if entries != [] {
      var init, e := entries[..|entries| - 1], entries[|entries| - 1];
      var l := Replay(c, init).value;
      ReplayWellFormed(c, init);
      ExtendFacts(c, l, e);
      ExtendMember(c, l, e, d);
      if d in l.members {
        AddedIndexNames(c, init, d);
      }
    }
  }

  /** The members, removed ones included, are the subjects of the entries that create or add. */
  lemma {:induction false} MembersHaveJoined(c: Crypto, entries: seq<Entry>, d: Text)
    requires Replay(c, entries).Ok?
    ensures d in Replay(c, entries).value.members <==> exists k :: 0 <= k < |entries| && Joins(entries[k], d)
  {
    hide Extend, WellFormed, ValidEntry, EntrySigned, Joins;
    if entries != [] {
      var init, e := entries[..|entries| - 1], entries[|entries| - 1];
      var l := Replay(c, init).value;
      ReplayWellFormed(c, init);
      MemberOrJoins(c, l, e, d);
      MembersHaveJoined(c, init, d);
      assert forall k | 0 <= k < |init| :: init[k] == entries[k];
      assert (exists k :: 0 <= k < |entries| && Joins(entries[k], d)) <==>
             (exists k :: 0 <= k < |init| && Joins(init[k], d)) || Joins(entries[|entries| - 1], d);
    }
  }

  lemma MemberOrJoins(c: Crypto, l: List, e: Entry, d: Text)
    requires WellFormed(l) && Extend(c, l, e).Ok?
    ensures d in Extend(c, l, e).value.members <==> d in l.members || Joins(e, d)
  {
    ExtendMember(c, l, e, d);
    hide Extend, WellFormed;
  }

  /** The epoch, read off the log: one for the creation and one more per removal or rotation. */
  function RekeyCount(entries: seq<Entry>): nat {
    if entries == [] then 0
    else
      var e := entries[|entries| - 1];
      RekeyCount(entries[..|entries| - 1]) + (if e.kind == REMOVE || e.kind == ROTATE then 1 else 0)
  }

  lemma {:induction false} EpochCountsRekeys(c: Crypto, entries: seq<Entry>)
    requires Replay(c, entries).Ok?
    requires entries != []
    ensures Replay(c, entries).value.Epoch() == 1 + RekeyCount(entries)
  {
    hide Extend;
    KindsDiffer();
    var init, e := entries[..|entries| - 1], entries[|entries| - 1];
    ReplayWellFormed(c, init);
    ExtendFacts(c, Replay(c, init).value, e);
    if init != [] {
      EpochCountsRekeys(c, init);
    }
  }

  /** Every historical epoch is the epoch of the list cut off there. */
  lemma {:induction false} EpochAtIsPrefixReplay(c: Crypto, entries: seq<Entry>, index: U64)
    requires Replay(c, entries).Ok?
    requires 1 <= index <= |entries|
    ensures Replay(c, entries).value.EpochAt(index) == Some(1 + RekeyCount(entries[..index]))
    ensures Replay(c, entries).value.DigestAt(index) == Some(c.DigestOfEntry(entries[index - 1]))
    decreases |entries|
  {
    hide Extend;
    ReplayWellFormed(c, entries);
    var init, e := entries[..|entries| - 1], entries[|entries| - 1];
    ReplayWellFormed(c, init);
    if index == |entries| {
      assert entries[..index] == entries;
      ExtendFacts(c, Replay(c, init).value, e);
      EpochCountsRekeys(c, entries);
    } else {
      EpochAtIsPrefixReplay(c, init, index);
      ExtendKeepsColumns(c, Replay(c, init).value, e, index);
      assert init[..index] == entries[..index];
    }
  }

  /** Authority: after the first entry, each one is signed with the key of a device that was a member
      when it was appended, and each names the digest of the one before it. */
  lemma EveryEntryIsAuthorised(c: Crypto, entries: seq<Entry>, k: nat)
    requires Replay(c, entries).Ok?
    requires 0 < k < |entries|
    ensures Holder(entries[..k], entries[k].signer).Some?
    ensures EntrySigned(c, entries[k], Holder(entries[..k], entries[k].signer).value.signingKey)
    ensures entries[k].previousDigest == c.DigestOfEntry(entries[k - 1])
    ensures entries[k].vaultId == entries[k - 1].vaultId
  {
    hide Extend;
    ReplayPrefix(c, entries, k + 1);
    ReplayPrefix(c, entries, k);
    assert entries[..k + 1][..k] == entries[..k];
    CurrentIsHolder(c, entries[..k], entries[k].signer);
    ReplayWellFormed(c, entries[..k]);
    ExtendFacts(c, Replay(c, entries[..k]).value, entries[k]);
    assert entries[..k][..k - 1] == entries[..k - 1];
    ExtendFacts(c, Replay(c, entries[..k - 1]).value, entries[k - 1]);
  }

  /** The tenth device is the last one. */
  lemma {:induction false} AtMostTenDevices(c: Crypto, entries: seq<Entry>)
    requires Replay(c, entries).Ok?
    ensures |Replay(c, entries).value.Current()| <= MAX_DEVICES
  {
    hide Extend;
    if entries != [] {
      var init, e := entries[..|entries| - 1], entries[|entries| - 1];
      AtMostTenDevices(c, init);
      ReplayWellFormed(c, init);
      CurrentGrowsByOne(c, Replay(c, init).value, e);
    }
  }

  lemma CurrentGrowsByOne(c: Crypto, l: List, e: Entry)
    requires WellFormed(l)
    requires Extend(c, l, e).Ok?
    requires |l.Current()| <= MAX_DEVICES
    ensures |Extend(c, l, e).value.Current()| <= MAX_DEVICES
  {
    KindsDiffer();
    var n := Extend(c, l, e).value;
    if e.index == 1 {
      assert n.Current() <= {e.subject} by {
        assert l.Head() == 0;
      }
      SubsetSize(n.Current(), {e.subject});
    } else if e.kind == ADD {
      assert n.Current() <= l.Current() + {e.subject};
      SubsetSize(n.Current(), l.Current() + {e.subject});
    } else {
      assert n.Current() <= l.Current();
      SubsetSize(n.Current(), l.Current());
    }
  }

  lemma {:induction false} SubsetSize<T>(a: set<T>, b: set<T>)
    requires a <= b
    ensures |a| <= |b|
  {
    if x :| x in a {
      SubsetSize(a - {x}, b - {x});
    }
  }

  // ---------------------------------------------------------------------------------------------
  // What a digest pins

  /** Two lists collide at a position: their entries there differ but digest alike. */
  ghost predicate CollidesAt(c: Crypto, e: seq<Entry>, f: seq<Entry>, k: nat) {
    k < |e| && k < |f| && c.Collides(EntryDigest(e[k]), EntryDigest(f[k]))
  }

  /** Verified lists with one digest at one index hold the same entries up to it, byte for byte,
      signatures included; otherwise the two lists themselves exhibit a hash collision. */
  lemma {:induction false} DigestPinsHistory(c: Crypto, e: seq<Entry>, f: seq<Entry>, index: U64)
    requires Replay(c, e).Ok? && Replay(c, f).Ok?
    requires 1 <= index <= |e| && index <= |f|
    requires Replay(c, e).value.DigestAt(index) == Replay(c, f).value.DigestAt(index)
    ensures e[..index] == f[..index] || exists k :: 0 <= k < index && CollidesAt(c, e, f, k)
    decreases index
  {
    hide Extend, Replay, Holder, RekeyCount, EntrySigned, List.DigestAt, List.EpochAt;
    EpochAtIsPrefixReplay(c, e, index);
    EpochAtIsPrefixReplay(c, f, index);
    if e[index - 1] != f[index - 1] {
      assert CollidesAt(c, e, f, index - 1);
    } else if index > 1 {
      EveryEntryIsAuthorised(c, e, index - 1);
      EveryEntryIsAuthorised(c, f, index - 1);
      EpochAtIsPrefixReplay(c, e, index - 1);
      EpochAtIsPrefixReplay(c, f, index - 1);
      DigestPinsHistory(c, e, f, index - 1);
      assert e[..index] == e[..index - 1] + [e[index - 1]];
      assert f[..index] == f[..index - 1] + [f[index - 1]];
    }
  }

  /** So the two lists agree on every member, key and epoch up to that index. */
  lemma DigestPinsMembership(c: Crypto, e: seq<Entry>, f: seq<Entry>, index: U64, d: Text, i: U64)
    requires Replay(c, e).Ok? && Replay(c, f).Ok?
    requires 1 <= i <= index <= |e| && index <= |f|
    requires Replay(c, e).value.DigestAt(index) == Replay(c, f).value.DigestAt(index)
    requires forall k | 0 <= k < index :: !CollidesAt(c, e, f, k)
    ensures StandingAt(Replay(c, e).value, d, i) == StandingAt(Replay(c, f).value, d, i)
    ensures Replay(c, e).value.EpochAt(i) == Replay(c, f).value.EpochAt(i)
    ensures Replay(c, e).value.vaultId == Replay(c, f).value.vaultId
  {
    hide *;
    DigestPinsHistory(c, e, f, index);
    SamePrefix(e, f, index, i);
    MemberAtIsPrefixReplay(c, e, d, i);
    MemberAtIsPrefixReplay(c, f, d, i);
    EpochAtIsPrefixReplay(c, e, i);
    EpochAtIsPrefixReplay(c, f, i);
    VaultOfFirstEntry(c, e);
    VaultOfFirstEntry(c, f);
  }

  lemma SamePrefix(e: seq<Entry>, f: seq<Entry>, index: nat, i: nat)
    requires 1 <= i <= index <= |e| && index <= |f|
    requires e[..index] == f[..index]
    ensures e[..i] == f[..i] && e[0] == f[0]
  {
    assert e[..i] == e[..index][..i] && f[..i] == f[..index][..i];
    assert e[0] == e[..index][0] && f[0] == f[..index][0];
  }

  lemma {:induction false} VaultOfFirstEntry(c: Crypto, entries: seq<Entry>)
    requires Replay(c, entries).Ok?
    requires entries != []
    ensures Replay(c, entries).value.vaultId == entries[0].vaultId
  {
    hide Extend;
    var init := entries[..|entries| - 1];
    ReplayWellFormed(c, init);
    ExtendFacts(c, Replay(c, init).value, entries[|entries| - 1]);
    if init != [] {
      VaultOfFirstEntry(c, init);
    }
  }
}
