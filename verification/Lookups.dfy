/** The scans and loops behind the service's reads, proved against the functions that specify them. */
module Lookups {
  import opened Basics
  import opened Records
  import opened Tables
  import opened Operations
  import opened VaultInvariant
  import opened VaultSteps
  import opened DeviceListObject
  import D = DeviceLog

  // ---------------------------------------------------------------------------------------------
  // Devices and pairings by token

  /** Rows that one token can be confused over: none share token, state and join index. */
  ghost predicate TokensDistinct(devices: Devices) {
    && (forall i, j | i in devices && j in devices && i != j :: devices[i].addedIndex != devices[j].addedIndex)
    && (forall i | i in devices :: devices[i].deviceId == i)
  }

  lemma BestIsUnique(devices: Devices, token: Text, i: Text, j: Text)
    requires TokensDistinct(devices)
    requires BestForToken(devices, token, i) && BestForToken(devices, token, j)
    ensures i == j
  {
  }

  /** The join index of a row names the log entry that added its device. */
  lemma RowJoined(c: Crypto, v: Vault, i: Text)
    requires LogOk(c, v.id, v.headIndex, v.epoch, v.entries, v.devices) && i in v.devices
    ensures 1 <= v.devices[i].addedIndex <= |v.entries| && v.entries[v.devices[i].addedIndex - 1].subject == i
  {
    hide D.Replay;
    var l := D.Replay(c, v.entries).value;
    assert RowMatches(v.devices[i], l.members[i]);
    D.AddedIndexNames(c, v.entries, i);
  }

  lemma LogTokensDistinct(c: Crypto, v: Vault)
    requires LogOk(c, v.id, v.headIndex, v.epoch, v.entries, v.devices)
    requires RolesOk(v.devices, v.pairings)
    ensures TokensDistinct(v.devices)
  {
    hide LogOk, RolesOk;
    DeviceIds(v.devices, v.pairings);
    forall i | i in v.devices
      ensures 1 <= v.devices[i].addedIndex <= |v.entries| && v.entries[v.devices[i].addedIndex - 1].subject == i
    {
      RowJoined(c, v, i);
    }
  }

  predicate Beats(a: Device, b: Device) {
    (b.state == Revoked && a.state != Revoked) || (a.state == b.state && a.addedIndex > b.addedIndex)
  }

  /** The best row for the token among those not left, if one of them has it. */
  ghost predicate BestSeen(devices: Devices, token: Text, left: set<Text>, best: Option<Text>) {
    match best
    case None => forall j | j in devices && j !in left :: devices[j].token != token
    case Some(i) =>
      && i in devices && i !in left && devices[i].token == token
      && forall j | j in devices && j !in left && devices[j].token == token && j != i :: Beats(devices[i], devices[j])
  }

  lemma BestMoves(devices: Devices, token: Text, left: set<Text>, best: Option<Text>, i: Text)
    requires TokensDistinct(devices) && left <= devices.Keys && i in left && BestSeen(devices, token, left, best)
    ensures
      var wins := devices[i].token == token && (best.None? || Beats(devices[i], devices[best.value]));
      BestSeen(devices, token, left - {i}, if wins then Some(i) else best)
  {
  }

  lemma BestFound(devices: Devices, token: Text, best: Option<Text>)
    requires TokensDistinct(devices) && BestSeen(devices, token, {}, best)
    ensures DeviceByToken(devices, token) == if best.Some? then Some(devices[best.value]) else None
  {
    if best.Some? {
      assert BestForToken(devices, token, best.value);
      forall j | BestForToken(devices, token, j)
        ensures j == best.value
      {
        BestIsUnique(devices, token, j, best.value);
      }
    }
  }

  /** Scans the device rows for a token, keeping the best one seen. */
  method DeviceByTokenScan(devices: Devices, token: Text) returns (d: Option<Device>)
    requires TokensDistinct(devices)
    ensures d == DeviceByToken(devices, token)
  {
    hide DeviceByToken, TokensDistinct, Beats;
    var left := devices.Keys;
    var best: Option<Text> := None;
    while left != {}
      invariant left <= devices.Keys && (best.Some? ==> best.value in devices)
      invariant BestSeen(devices, token, left, best)
      decreases |left|
    {
      var i :| i in left;
      BestMoves(devices, token, left, best, i);
      left := left - {i};
      if devices[i].token == token && (best.None? || Beats(devices[i], devices[best.value])) {
        best := Some(i);
      }
    }
    BestFound(devices, token, best);
    d := if best.Some? then Some(devices[best.value]) else None;
  }

  method PairingByTokenScan(pairings: Pairings, token: Text) returns (p: Option<Pairing>)
    requires forall i, j | i in pairings && j in pairings && i != j :: pairings[i].token != pairings[j].token
    ensures p == PairingByToken(pairings, token)
  {
    var left := pairings.Keys;
    while left != {}
      invariant left <= pairings.Keys
      invariant forall j | j in pairings && j !in left :: pairings[j].token != token
      decreases |left|
    {
      var i :| i in left;
      if pairings[i].token == token {
        return Some(pairings[i]);
      }
      left := left - {i};
    }
    return None;
  }

  method ActorForScan(v: Vault, caller: Caller, now: Time) returns (r: Result<Actor, Error>)
    requires TokensDistinct(v.devices) && RolesOk(v.devices, v.pairings)
    ensures r == ActorFor(v, caller, now)
  {
    var device := DeviceByTokenScan(v.devices, caller.token);
    if device.Some? && Live(device.value) {
      return Ok(ByDevice(device.value));
    }
    var pairing := PairingByTokenScan(v.pairings, caller.token);
    if pairing.None? {
      if device.Some? {
        return Ok(ByDevice(device.value));
      }
      return Err(Forbidden);
    }
    if now >= pairing.value.expiresAt {
      return Err(Forbidden);
    }
    return Ok(ByPairing(pairing.value));
  }

  // ---------------------------------------------------------------------------------------------
  // Loading the device list in pages

  /** One page: the first entries with an index beyond `after`. */
  function Page(entries: seq<Entry>, after: U64, limit: nat): seq<Entry> {
    if entries == [] || limit == 0 then []
    else if entries[0].index > after then [entries[0]] + Page(entries[1..], after, limit - 1)
    else Page(entries[1..], after, limit)
  }

  ghost predicate Indexed(entries: seq<Entry>, base: nat) {
    forall k | 0 <= k < |entries| :: entries[k].index == base + k + 1
  }

  lemma {:induction false} PageIsSlice(entries: seq<Entry>, base: nat, after: U64, limit: nat)
    requires Indexed(entries, base) && base <= after <= base + |entries|
    ensures
      var from := after - base;
      var upto := if from + limit <= |entries| then from + limit else |entries|;
      Page(entries, after, limit) == entries[from..upto]
    decreases |entries|
  {
    if entries != [] && limit > 0 {
      var rest := entries[1..];
      if base < after {
        PageIsSlice(rest, base + 1, after, limit);
      } else {
        PageFromStart(entries, after, limit);
      }
    }
  }

  lemma {:induction false} PageFromStart(entries: seq<Entry>, after: U64, limit: nat)
    requires forall k | 0 <= k < |entries| :: entries[k].index > after
    ensures Page(entries, after, limit) == if limit <= |entries| then entries[..limit] else entries
    decreases |entries|
  {
    if entries != [] && limit > 0 {
      PageFromStart(entries[1..], after, limit - 1);
    }
  }

  lemma NextReplay(c: Crypto, entries: seq<Entry>, k: nat)
    requires k < |entries| && D.Replay(c, entries[..k]).Ok?
    ensures D.Replay(c, entries[..k + 1]) == D.Extend(c, D.Replay(c, entries[..k]).value, entries[k])
  {
    hide D.Replay, D.Extend;
    assert entries[..k + 1] == entries[..k] + [entries[k]];
    D.ReplaySnoc(c, entries[..k], entries[k]);
  }

  /** Extends the list by one page, entry by entry. */
  method ExtendPage(c: Crypto, list: DeviceList, ghost entries: seq<Entry>, ghost start: nat, page: seq<Entry>)
    returns (r: Result<(), D.Fault>)
    requires start + |page| <= |entries| && page == entries[start..start + |page|]
    requires D.Replay(c, entries[..start]) == Ok(list.View())
    modifies list
    ensures r.Ok? ==> D.Replay(c, entries[..start + |page|]) == Ok(list.View())
    ensures r.Err? ==> D.Replay(c, entries) == Err(r.error)
  {
    hide D.Extend, D.Replay;
    for i := 0 to |page|
      invariant D.Replay(c, entries[..start + i]) == Ok(list.View())
    {
      assert page[i] == entries[start + i];
      NextReplay(c, entries, start + i);
      var step := list.Extend(c, page[i]);
      if step.Err? {
        D.ReplayStops(c, entries, start + i + 1);
        return Err(step.error);
      }
    }
    return Ok(());
  }

  /** A page starts where the last one ended, and a short page is the last. */
  lemma PageFacts(entries: seq<Entry>, after: U64)
    requires Indexed(entries, 0) && after <= |entries|
    ensures
      var page := Page(entries, after, MAX_ENTRIES_PER_PAGE);
      && after + |page| <= |entries| && page == entries[after..after + |page|]
      && (|page| > 0 ==> page[|page| - 1].index == after + |page|)
      && (|page| < MAX_ENTRIES_PER_PAGE ==> after + |page| == |entries|)
  {
    hide Page;
    PageIsSlice(entries, 0, after, MAX_ENTRIES_PER_PAGE);
  }

  /** The list is the replay of the entries up to a position. */
  ghost predicate ReadUpTo(c: Crypto, entries: seq<Entry>, k: nat, list: D.List) {
    k <= |entries| && D.Replay(c, entries[..k]) == Ok(list)
  }

  lemma NothingRead(c: Crypto, entries: seq<Entry>)
    ensures ReadUpTo(c, entries, 0, D.NEW_LIST)
  {
  }

  lemma AllRead(c: Crypto, entries: seq<Entry>, list: D.List)
    requires ReadUpTo(c, entries, |entries|, list)
    ensures D.Replay(c, entries) == Ok(list)
  {
    hide D.Replay;
    assert entries[..|entries|] == entries;
  }

  /** Reads one page and says where the next one starts and whether this was the last. */
  method ReadPage(c: Crypto, list: DeviceList, entries: seq<Entry>, after: U64)
    returns (r: Result<(), D.Fault>, next: U64, last: bool)
    requires Indexed(entries, 0) && |entries| < U64_LIMIT && ReadUpTo(c, entries, after, list.View())
    modifies list
    ensures r.Ok? ==> ReadUpTo(c, entries, next, list.View()) && (if last then next == |entries| else after < next)
    ensures r.Err? ==> D.Replay(c, entries) == Err(r.error)
  {
    hide D.Extend, D.Replay, Page, DeviceList.View, Indexed;
    var page := Page(entries, after, MAX_ENTRIES_PER_PAGE);
    PageFacts(entries, after);
    r := ExtendPage(c, list, entries, after, page);
    next := if |page| > 0 then page[|page| - 1].index else after;
    last := |page| < MAX_ENTRIES_PER_PAGE;
  }

  /** Reads the stored list page by page and verifies every entry on the way. */
  method LoadList(c: Crypto, entries: seq<Entry>) returns (r: Result<DeviceList, D.Fault>)
    requires Indexed(entries, 0) && |entries| < U64_LIMIT
    ensures r.Ok? ==> fresh(r.value) && D.Replay(c, entries) == Ok(r.value.View())
    ensures r.Err? ==> D.Replay(c, entries) == Err(r.error)
  {
    hide D.Extend, D.Replay, DeviceList.View, Indexed;
    NothingRead(c, entries);
    var list := new DeviceList();
    var after: U64 := 0;
    while true
      invariant fresh(list) && ReadUpTo(c, entries, after, list.View())
      decreases |entries| - after
    {
      var step, next, last := ReadPage(c, list, entries, after);
      if step.Err? {
        return Err(step.error);
      }
      after := next;
      if last {
        AllRead(c, entries, list.View());
        return Ok(list);
      }
    }
  }

  // ---------------------------------------------------------------------------------------------
  // Key packages and headers

  /** Checks the packages of a rekey one by one, striking each recipient off the expected set. */
  method DistributeLoop(c: Crypto, v: Vault, sender: Device, e: Entry, survivors: set<Text>, packages: seq<KeyPackage>)
    returns (r: Result<map<Text, KeyPackage>, Error>)
    ensures r == Distribute(c, v, sender, e, survivors, packages, map[])
  {
    var expected := survivors;
    var table: map<Text, KeyPackage> := map[];
    var i := 0;
    while i < |packages|
      invariant 0 <= i <= |packages|
      invariant Distribute(c, v, sender, e, survivors, packages, map[]) ==
                Distribute(c, v, sender, e, expected, packages[i..], table)
    {
      hide PackageSigned, PackageFits;
      var k := packages[i];
      assert packages[i..][0] == k && packages[i..][1..] == packages[i + 1..];
      if k.recipient !in expected {
        return Err(Invalid);
      }
      expected := expected - {k.recipient};
      if !PackageFits(c, v, sender, k, e.epochAfter, e) || !PackageSigned(c, k, sender.signingKey) {
        return Err(Invalid);
      }
      table := table[k.recipient := k];
      i := i + 1;
    }
    return Ok(table);
  }

  /** Scans the stored headers for the newest. */
  method LatestHeaderScan(v: Vault) returns (r: Option<StoredHeader>)
    ensures r == LatestHeader(v)
  {
    var left := v.headers.Keys;
    var best: Option<U64> := None;
    while left != {}
      invariant left <= v.headers.Keys
      invariant best.None? ==> left == v.headers.Keys
      invariant best.Some? ==> best.value in v.headers && forall s | s in v.headers && s !in left :: s <= best.value
      decreases |left|
    {
      var s :| s in left;
      if best.None? || s > best.value {
        best := Some(s);
      }
      left := left - {s};
    }
    if best.None? {
      return None;
    }
    return Some(v.headers[best.value]);
  }
}
