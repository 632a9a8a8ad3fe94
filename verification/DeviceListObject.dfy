/** The device list as the object the server and the desktops hold: fields updated in place by
    `Extend`, proved against the replay functions of `DeviceLog`. */
module DeviceListObject {
  import opened Basics
  import opened Records
  import D = DeviceLog

  class DeviceList {
    var vaultId: Text
    var members: map<Text, D.Member>
    var digests: seq<Text>
    var epochs: seq<U64>

    ghost function View(): D.List
      reads this
    {
      D.List(vaultId, members, digests, epochs)
    }

    constructor ()
      ensures View() == D.NEW_LIST
    {
      vaultId := [];
      members := map[];
      digests := [];
      epochs := [];
    }

    method Append(c: Crypto, e: Entry, epoch: U64)
      modifies this`digests, this`epochs
      ensures View() == old(View()).Append(c.DigestOfEntry(e), epoch)
    {
      digests := digests + [c.DigestOfEntry(e)];
      epochs := epochs + [epoch];
    }

    method Epoch() returns (epoch: U64)
      ensures epoch == View().Epoch()
    {
      if |epochs| == 0 {
        return 0;
      }
      return epochs[|epochs| - 1];
    }

    method ExtendKey(c: Crypto, e: Entry, signer: D.Member) returns (r: Result<(), D.Fault>)
      modifies this
      ensures r.Ok? ==> D.ExtendKey(c, old(View()), e, signer) == Ok(View())
      ensures r.Err? ==> View() == old(View()) && D.ExtendKey(c, View(), e, signer) == Err(r.error)
    {
      var epoch := Epoch();
      if e.epochAfter != epoch {
        return Err(D.Broken);
      }
      if !c.Decodes(signer.packageKey, D.X25519_KEY_BYTES) {
        return Err(D.Broken);
      }
      var changed := signer;
      changed := changed.(replaced := changed.replaced + [D.KeyChange(e.index, changed.packageKey)]);
      changed := changed.(packageKey := e.packageKey);
      members := members[changed.deviceId := changed];
      Append(c, e, e.epochAfter);
      return Ok(());
    }

    method ExtendRemove(c: Crypto, e: Entry) returns (r: Result<(), D.Fault>)
      modifies this
      ensures r.Ok? ==> D.ExtendRemove(c, old(View()), e) == Ok(View())
      ensures r.Err? ==> View() == old(View()) && D.ExtendRemove(c, View(), e) == Err(r.error)
    {
      if e.subject !in members || members[e.subject].removedIndex != 0 {
        return Err(D.Broken);
      }
      var epoch := Epoch();
      if CheckedNext(epoch) != Some(e.epochAfter) {
        return Err(D.Broken);
      }
      var subject := members[e.subject];
      subject := subject.(removedIndex := e.index);
      members := members[e.subject := subject];
      Append(c, e, e.epochAfter);
      return Ok(());
    }

    method ExtendAdd(c: Crypto, e: Entry) returns (r: Result<(), D.Fault>)
      modifies this
      ensures r.Ok? ==> D.ExtendAdd(c, old(View()), e) == Ok(View())
      ensures r.Err? ==> View() == old(View()) && D.ExtendAdd(c, View(), e) == Err(r.error)
    {
      if e.subject in members {
        return Err(D.Broken);
      }
      var epoch := Epoch();
      if e.epochAfter != epoch {
        return Err(D.Broken);
      }
      var current := set d | d in members && members[d].removedIndex == 0;
      assert current == View().Current();
      if |current| >= D.MAX_DEVICES {
        return Err(D.Broken);
      }
      members := members[e.subject := D.MemberFromEntry(e)];
      Append(c, e, e.epochAfter);
      return Ok(());
    }

    /** Extends the list in place, or leaves it exactly as it was. */
    method Extend(c: Crypto, e: Entry) returns (r: Result<(), D.Fault>)
      modifies this
      ensures r.Ok? ==> D.Extend(c, old(View()), e) == Ok(View())
      ensures r.Err? ==> View() == old(View()) && D.Extend(c, View(), e) == Err(r.error)
    {
      D.KindsDiffer();
      if !D.ValidEntry(c, e) {
        return Err(D.Invalid);
      }
      if e.index != |digests| + 1 {
        return Err(D.Broken);
      }
      if e.index == 1 {
        if e.kind != D.CREATE || e.signer != e.subject || e.epochAfter != 1 || e.snapshotFloor != 0 {
          return Err(D.Broken);
        }
        if !D.EntrySigned(c, e, e.signingKey) {
          return Err(D.Broken);
        }
        vaultId := e.vaultId;
        members := members[e.subject := D.MemberFromEntry(e)];
        Append(c, e, 1);
        return Ok(());
      }
      if e.vaultId != vaultId || e.previousDigest != (if digests == [] then [] else digests[|digests| - 1]) {
        return Err(D.Broken);
      }
      if e.signer !in members || members[e.signer].removedIndex != 0 {
        return Err(D.Broken);
      }
      if !D.EntrySigned(c, e, members[e.signer].signingKey) {
        return Err(D.Broken);
      }
      if e.kind == D.ADD {
        r := ExtendAdd(c, e);
      } else if e.kind == D.REMOVE {
        r := ExtendRemove(c, e);
      } else if e.kind == D.KEY {
        r := ExtendKey(c, e, members[e.signer]);
      } else if e.kind == D.ROTATE {
        var epoch := Epoch();
        if CheckedNext(epoch) != Some(e.epochAfter) {
          return Err(D.Broken);
        }
        Append(c, e, e.epochAfter);
        r := Ok(());
      } else {
        r := Err(D.Broken);
      }
    }

    /** The historical lookup: walks the recorded key replacements to the first later one. */
    method MemberAt(deviceId: Text, index: U64) returns (found: Option<D.Member>)
      ensures found == View().MemberAt(deviceId, index)
    {
      if deviceId !in members || !D.PresentAt(members[deviceId], index) {
        return None;
      }
      var m := members[deviceId];
      var changes := m.replaced;
      var i := 0;
      while i < |changes|
        invariant 0 <= i <= |changes|
        invariant m == members[deviceId]
        invariant D.KeyAt(changes, m.packageKey, index) == D.KeyAt(changes[i..], m.packageKey, index)
      {
        if index < changes[i].index {
          m := m.(packageKey := changes[i].previous);
          return Some(m);
        }
        assert changes[i..][1..] == changes[i + 1..];
        i := i + 1;
      }
      return Some(m);
    }
  }

  /** Verifies a list entry by entry, stopping at the first fault. */
  method VerifyDeviceList(c: Crypto, entries: seq<Entry>) returns (r: Result<DeviceList, D.Fault>)
    ensures r.Ok? ==> fresh(r.value) && D.Replay(c, entries) == Ok(r.value.View())
    ensures r.Err? ==> D.Replay(c, entries) == Err(r.error)
  {
    assert D.Replay(c, entries[..0]) == Ok(D.NEW_LIST);
    hide D.Replay, D.Extend;
    var list := new DeviceList();
    var i := 0;
    while i < |entries|
      invariant 0 <= i <= |entries|
      invariant fresh(list)
      invariant D.Replay(c, entries[..i]) == Ok(list.View())
    {
      assert entries[..i + 1] == entries[..i] + [entries[i]];
      D.ReplaySnoc(c, entries[..i], entries[i]);
      var step := list.Extend(c, entries[i]);
      if step.Err? {
        D.ReplayStops(c, entries, i + 1);
        return Err(step.error);
      }
      i := i + 1;
    }
    assert entries[..i] == entries;
    return Ok(list);
  }
}
