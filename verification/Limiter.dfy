/** The in-memory limiter: a sliding window per key, over at most a fixed number of keys, least recently used out
    first. */
module Limiter {
  import opened Basics

  type Key = Bytes

  const CAPACITY: nat := 4096

  /** The times of the allowed attempts of each key, and the keys from the most to the least recently used. */
  datatype Table = Table(attempts: map<Key, seq<Time>>, recency: seq<Key>)

  datatype Call = Call(key: Key, limit: int, window: int, now: Time)

  // ---------------------------------------------------------------------------------------------
  // One call

  function Without(keys: seq<Key>, key: Key): (rest: seq<Key>)
    ensures forall k :: k in rest <==> k in keys && k != key
  {
    if keys == [] then []
    else if keys[0] == key then Without(keys[1..], key)
    else [keys[0]] + Without(keys[1..], key)
  }

  /** The key dropped to make room, if any: the last of the recency list when a new key meets a full table. */
  function Dropped(t: Table, key: Key): Option<Key> {
    if key !in t.attempts && |t.attempts| >= CAPACITY && t.recency != [] then Some(t.recency[|t.recency| - 1]) else None
  }

  /** The table with the key in front, new or moved. */
  function Touch(t: Table, key: Key): (u: Table)
    ensures key in u.attempts
  {
    if key in t.attempts then Table(t.attempts, [key] + Without(t.recency, key))
    else
      match Dropped(t, key)
      case None => Table(t.attempts[key := []], [key] + t.recency)
      case Some(oldest) => Table((t.attempts - {oldest})[key := []], [key] + t.recency[..|t.recency| - 1])
  }

  function Kept(times: seq<Time>, cutoff: Time): seq<Time> {
    if times == [] then []
    else
      var front, last := times[..|times| - 1], times[|times| - 1];
      if last > cutoff then Kept(front, cutoff) + [last] else Kept(front, cutoff)
  }

  /** The table after a call, and whether the call was allowed. */
  function Allow(t: Table, c: Call): (Table, bool) {
    var u := Touch(t, c.key);
    var kept := Kept(u.attempts[c.key], c.now - c.window);
    if |kept| >= c.limit then (u.(attempts := u.attempts[c.key := kept]), false)
    else (u.(attempts := u.attempts[c.key := kept + [c.now]]), true)
  }

  // ---------------------------------------------------------------------------------------------
  // The map and the recency list stay in bijection

  ghost predicate Distinct(keys: seq<Key>) {
    forall i, k | 0 <= i < k < |keys| :: keys[i] != keys[k]
  }

  ghost predicate Valid(t: Table) {
    && Distinct(t.recency) && |t.recency| <= CAPACITY
    && forall k :: k in t.recency <==> k in t.attempts
  }

  lemma {:induction false} DistinctCount(keys: seq<Key>, all: set<Key>)
    requires Distinct(keys) && forall k :: k in keys <==> k in all
    ensures |all| == |keys|
    decreases |keys|
  {
    if keys == [] {
      assert all == {};
    } else {
      assert keys[0] in keys;
      forall k
        ensures k in keys[1..] <==> k in all - {keys[0]}
      {
        assert keys == [keys[0]] + keys[1..];
      }
      DistinctCount(keys[1..], all - {keys[0]});
    }
  }

  lemma {:induction false} WithoutKeeps(keys: seq<Key>, key: Key)
    requires Distinct(keys)
    ensures Distinct(Without(keys, key))
    ensures |Without(keys, key)| == if key in keys then |keys| - 1 else |keys|
  {
    if keys != [] {
      WithoutKeeps(keys[1..], key);
      assert keys == [keys[0]] + keys[1..];
      if keys[0] == key {
        assert key !in keys[1..];
      } else {
        var rest := Without(keys[1..], key);
        assert forall k | k in rest :: k in keys[1..];
        forall k | 0 <= k < |rest|
          ensures rest[k] != keys[0]
        {
          assert rest[k] in rest;
        }
      }
    }
  }

  lemma TouchKeeps(t: Table, key: Key)
    requires Valid(t)
    ensures Valid(Touch(t, key)) && Touch(t, key).recency[0] == key
  {
    hide Without;
    DistinctCount(t.recency, t.attempts.Keys);
    var u := Touch(t, key);
    if key in t.attempts {
      WithoutKeeps(t.recency, key);
      assert key !in Without(t.recency, key);
    } else if Dropped(t, key).Some? {
      var front, oldest := t.recency[..|t.recency| - 1], t.recency[|t.recency| - 1];
      assert t.recency == front + [oldest];
      assert oldest !in front;
      forall k
        ensures k in u.recency <==> k in u.attempts
      {
        assert k in u.recency <==> k == key || k in front;
        assert k in t.recency <==> k in front || k == oldest;
      }
    }
  }

  /** Every call keeps the map and the list in bijection, within the capacity. */
  lemma AllowKeeps(t: Table, c: Call)
    requires Valid(t)
    ensures Valid(Allow(t, c).0)
  {
    hide Kept;
    TouchKeeps(t, c.key);
  }

  // ---------------------------------------------------------------------------------------------
  // Runs

  function Empty(): Table {
    Table(map[], [])
  }

  function Run(calls: seq<Call>): Table {
    if calls == [] then Empty() else Allow(Run(calls[..|calls| - 1]), calls[|calls| - 1]).0
  }

  lemma {:induction false} EveryTableIsValid(calls: seq<Call>)
    ensures Valid(Run(calls))
  {
    if calls != [] {
      EveryTableIsValid(calls[..|calls| - 1]);
      AllowKeeps(Run(calls[..|calls| - 1]), calls[|calls| - 1]);
    }
  }

  /** The position of the last call for a key, or -1. */
  function LastUse(calls: seq<Call>, key: Key): (i: int)
    ensures -1 <= i < |calls|
  {
    if calls == [] then -1
    else if calls[|calls| - 1].key == key then |calls| - 1
    else LastUse(calls[..|calls| - 1], key)
  }

  ghost predicate Descending(use: Key -> int, keys: seq<Key>) {
    forall i, k | 0 <= i < k < |keys| :: use(keys[i]) > use(keys[k])
  }

  lemma {:induction false} WithoutDescends(use: Key -> int, keys: seq<Key>, key: Key)
    requires Descending(use, keys)
    ensures Descending(use, Without(keys, key))
  {
    if keys != [] {
      WithoutDescends(use, keys[1..], key);
      var rest := Without(keys[1..], key);
      forall k | 0 <= k < |rest|
        ensures use(rest[k]) < use(keys[0])
      {
        assert rest[k] in rest;
        assert rest[k] in keys[1..];
      }
    }
  }

  lemma TouchDescends(use: Key -> int, t: Table, key: Key)
    requires Valid(t) && Descending(use, t.recency)
    ensures var rest := Touch(t, key).recency[1..]; Descending(use, rest) && key !in rest
  {
    hide Without;
    WithoutDescends(use, t.recency, key);
    var front := if t.recency == [] then [] else t.recency[..|t.recency| - 1];
    assert forall k | k in front :: k in t.recency;
  }

  lemma FrontDescends(earlier: Key -> int, use: Key -> int, key: Key, rest: seq<Key>)
    requires Descending(earlier, rest) && forall k | k in rest :: use(k) == earlier(k) < use(key)
    ensures Descending(use, [key] + rest)
  {
    var keys := [key] + rest;
    assert forall i | 0 < i < |keys| :: keys[i] == rest[i - 1] && rest[i - 1] in rest;
  }

  lemma RunStep(before: seq<Call>, c: Call)
    ensures Run(before + [c]) == Allow(Run(before), c).0
    ensures Run(before + [c]).recency == Touch(Run(before), c.key).recency
    ensures forall k :: LastUse(before + [c], k) == if k == c.key then |before| else LastUse(before, k)
  {
    hide Kept, Touch;
    assert (before + [c])[..|before|] == before;
  }

  /** The recency list is the keys of the table in the order of their last call, latest first. */
  lemma {:induction false} RecencyIsUseOrder(calls: seq<Call>)
    ensures Descending(k => LastUse(calls, k), Run(calls).recency)
  {
    if calls != [] {
      hide Kept, Touch, Run, LastUse, Descending;
      var before, c := calls[..|calls| - 1], calls[|calls| - 1];
      assert calls == before + [c];
      RecencyIsUseOrder(before);
      EveryTableIsValid(before);
      RunStep(before, c);
      var t := Run(before);
      TouchKeeps(t, c.key);
      TouchDescends(k => LastUse(before, k), t, c.key);
      var keys := Run(calls).recency;
      assert keys == [c.key] + keys[1..];
      FrontDescends(k => LastUse(before, k), k => LastUse(calls, k), c.key, keys[1..]);
    }
  }

  /** A key is dropped only for a new key at a full table, and every other key there was used after it. */
  lemma LeastRecentlyUsedGoes(calls: seq<Call>, key: Key, out: Key)
    requires Dropped(Run(calls), key) == Some(out)
    ensures |Run(calls).attempts| == CAPACITY && key !in Run(calls).attempts && out in Run(calls).attempts
    ensures forall k | k in Run(calls).attempts && k != out :: LastUse(calls, out) < LastUse(calls, k)
  {
    hide Run, LastUse;
    var t := Run(calls);
    EveryTableIsValid(calls);
    RecencyIsUseOrder(calls);
    DistinctCount(t.recency, t.attempts.Keys);
    forall k | k in t.attempts && k != out
      ensures LastUse(calls, out) < LastUse(calls, k)
    {
      assert k in t.recency;
      var i :| 0 <= i < |t.recency| && t.recency[i] == k;
      assert i < |t.recency| - 1;
    }
  }

  // ---------------------------------------------------------------------------------------------
  // The sliding window

  /** Calls happen one at a time, and each reads a monotonic clock. */
  ghost predicate Ordered(calls: seq<Call>) {
    forall i, k | 0 <= i < k < |calls| :: calls[i].now <= calls[k].now
  }

  ghost predicate FixedFor(calls: seq<Call>, key: Key, limit: int, window: int) {
    forall i | 0 <= i < |calls| && calls[i].key == key :: calls[i].limit == limit && calls[i].window == window
  }

  /** The times of a key's allowed attempts since it was last dropped from the table. */
  function Since(calls: seq<Call>, key: Key): seq<Time> {
    if calls == [] then []
    else
      var before, c := calls[..|calls| - 1], calls[|calls| - 1];
      if Dropped(Run(before), c.key) == Some(key) then []
      else if c.key == key && Allow(Run(before), c).1 then Since(before, key) + [c.now]
      else Since(before, key)
  }

  ghost predicate Sorted(times: seq<Time>, last: Time) {
    && (forall i, k | 0 <= i < k < |times| :: times[i] <= times[k])
    && (forall i | 0 <= i < |times| :: times[i] <= last)
  }

  /** The recorded times are the attempts from the m-th on; those before it are all too old to count. */
  ghost predicate Tracks(all: seq<Time>, recorded: seq<Time>, m: nat, horizon: Time) {
    m <= |all| && recorded == all[m..] && forall i | 0 <= i < m :: all[i] <= horizon
  }

  ghost predicate Spaced(times: seq<Time>, limit: int, window: int) {
    forall i | 0 <= i <= i + limit < |times| :: times[i + limit] - times[i] >= window
  }

  function Recorded(t: Table, key: Key): seq<Time> {
    if key in t.attempts then t.attempts[key] else []
  }

  /** On sorted times the filter cuts off a prefix. */
  lemma {:induction false} KeptIsSuffix(times: seq<Time>, cutoff: Time, last: Time) returns (m: nat)
    requires Sorted(times, last)
    ensures m <= |times| && Kept(times, cutoff) == times[m..]
    ensures (forall i | 0 <= i < m :: times[i] <= cutoff) && (forall i | m <= i < |times| :: times[i] > cutoff)
  {
    if times == [] {
      m := 0;
    } else {
      var front := times[..|times| - 1];
      assert forall i | 0 <= i < |front| :: front[i] == times[i];
      m := KeptIsSuffix(front, cutoff, last);
      if times[|times| - 1] > cutoff {
        assert times[m..] == front[m..] + [times[|times| - 1]];
      } else {
        assert m == |front|;
        m := |times|;
      }
    }
  }

  /** The reference: a call is allowed unless the limit was reached within the window. */
  predicate Room(all: seq<Time>, limit: int, window: int, now: Time) {
    limit > 0 && (|all| < limit || now - all[|all| - limit] >= window)
  }

  /** One call against a record that tracks the attempts so far. */
  lemma CallDecides(all: seq<Time>, recorded: seq<Time>, m: nat, limit: int, window: int, now: Time) returns (n: nat)
    requires Sorted(all, now) && Tracks(all, recorded, m, now - window)
    ensures var kept := Kept(recorded, now - window);
            Tracks(all, kept, n, now - window) && (|kept| < limit <==> Room(all, limit, window, now))
  {
    hide Kept;
    var cut := KeptIsSuffix(recorded, now - window, now);
    n := m + cut;
    assert recorded[cut..] == all[n..];
    forall i | 0 <= i < n
      ensures all[i] <= now - window
    {
      if i >= m {
        assert all[i] == recorded[i - m];
      }
    }
    forall i | n <= i < |all|
      ensures all[i] > now - window
    {
      assert all[i] == recorded[i - m];
    }
  }

  /** An attempt for which there is room keeps the attempts spaced. */
  lemma AttemptKeeps(all: seq<Time>, kept: seq<Time>, n: nat, limit: int, window: int, now: Time)
    requires Sorted(all, now) && Tracks(all, kept, n, now - window) && Spaced(all, limit, window)
             && Room(all, limit, window, now)
    ensures Sorted(all + [now], now) && Tracks(all + [now], kept + [now], n, now - window)
            && Spaced(all + [now], limit, window)
  {
    assert (all + [now])[n..] == all[n..] + [now];
  }

  lemma RecordedAfter(t: Table, c: Call, key: Key)
    requires Valid(t)
    ensures Recorded(Touch(t, c.key), c.key) == Recorded(t, c.key)
    ensures c.key != key && Dropped(t, c.key) != Some(key) ==> Recorded(Allow(t, c).0, key) == Recorded(t, key)
    ensures Dropped(t, c.key) == Some(key) ==> c.key != key && Recorded(Allow(t, c).0, key) == []
  {
    hide Kept, Without;
  }

  /** What a call does to a key's recorded times and to its attempts since it was last dropped. */
  lemma SinceStep(before: seq<Call>, c: Call, key: Key)
    ensures var t, all, calls := Run(before), Since(before, key), before + [c];
            var kept := Kept(Recorded(t, key), c.now - c.window);
            if Dropped(t, c.key) == Some(key) then Since(calls, key) == [] && Recorded(Run(calls), key) == []
            else if c.key != key then Since(calls, key) == all && Recorded(Run(calls), key) == Recorded(t, key)
            else if |kept| < c.limit then Since(calls, key) == all + [c.now]
              && Recorded(Run(calls), key) == kept + [c.now]
            else Since(calls, key) == all && Recorded(Run(calls), key) == kept
  {
    hide Kept, Touch, Dropped, Run, Valid, LastUse;
    EveryTableIsValid(before);
    RunStep(before, c);
    RecordedAfter(Run(before), c, key);
    assert (before + [c])[..|before|] == before;
  }

  lemma BeforeAnyCall(key: Key, limit: int, window: int, now: Time)
    ensures Sorted(Since([], key), now) && Spaced(Since([], key), limit, window)
    ensures Tracks(Since([], key), Recorded(Run([]), key), 0, now - window)
  {
  }

  lemma Later(all: seq<Time>, recorded: seq<Time>, m: nat, window: int, earlier: Time, now: Time)
    requires earlier <= now && Sorted(all, earlier) && Tracks(all, recorded, m, earlier - window)
    ensures Sorted(all, now) && Tracks(all, recorded, m, now - window)
  {
  }

  lemma CallsBefore(before: seq<Call>, c: Call, key: Key, limit: int, window: int)
    requires Ordered(before + [c]) && FixedFor(before + [c], key, limit, window)
    ensures Ordered(before) && FixedFor(before, key, limit, window)
    ensures forall i | 0 <= i < |before| :: before[i].now <= c.now
    ensures c.key == key ==> c.limit == limit && c.window == window
  {
    var calls := before + [c];
    assert calls[|before|] == c && forall i | 0 <= i < |before| :: before[i] == calls[i];
  }

  /** At any time after the calls, the record of a key tracks its attempts, and these are spaced. */
  lemma {:induction false} WindowHolds(calls: seq<Call>, key: Key, limit: int, window: int, now: Time) returns (m: nat)
    requires Ordered(calls) && FixedFor(calls, key, limit, window) && forall i | 0 <= i < |calls| :: calls[i].now <= now
    ensures Sorted(Since(calls, key), now) && Spaced(Since(calls, key), limit, window)
    ensures Tracks(Since(calls, key), Recorded(Run(calls), key), m, now - window)
  {
    hide Kept, Run, Dropped, Since, Recorded, Sorted, Spaced, Tracks, Room, Ordered, FixedFor;
    if calls == [] {
      BeforeAnyCall(key, limit, window, now);
      return 0;
    }
    var before, c := calls[..|calls| - 1], calls[|calls| - 1];
    assert calls == before + [c];
    CallsBefore(before, c, key, limit, window);
    m := WindowHolds(before, key, limit, window, c.now);
    SinceStep(before, c, key);
    if Dropped(Run(before), c.key) == Some(key) {
      BeforeAnyCall(key, limit, window, c.now);
      NothingYet(key);
      m := 0;
    } else if c.key == key {
      var all, recorded := Since(before, key), Recorded(Run(before), key);
      m := CallDecides(all, recorded, m, limit, window, c.now);
      if Room(all, limit, window, c.now) {
        AttemptKeeps(all, Kept(recorded, c.now - window), m, limit, window, c.now);
      }
    }
    Later(Since(calls, key), Recorded(Run(calls), key), m, window, c.now, now);
  }

  lemma NothingYet(key: Key)
    ensures Since([], key) == [] && Recorded(Run([]), key) == []
  {
  }

  /** Any limit + 1 successive allowed attempts of a key that stays in the table span at least the window. */
  lemma SlidingWindow(calls: seq<Call>, key: Key, limit: int, window: int)
    requires Ordered(calls) && FixedFor(calls, key, limit, window)
    ensures Spaced(Since(calls, key), limit, window)
  {
    var _ := WindowHolds(calls, key, limit, window, if calls == [] then 0 else calls[|calls| - 1].now);
  }

  /** A call is allowed exactly when fewer than the limit of the key's allowed attempts lie within the window. */
  lemma AllowedIff(calls: seq<Call>, c: Call)
    requires Ordered(calls + [c]) && FixedFor(calls + [c], c.key, c.limit, c.window)
    ensures Allow(Run(calls), c).1 <==> Room(Since(calls, c.key), c.limit, c.window, c.now)
  {
    hide Kept, Touch, Since, Run, Valid;
    var all := calls + [c];
    assert all[|calls|] == c && forall i | 0 <= i < |calls| :: all[i] == calls[i];
    var m := WindowHolds(calls, c.key, c.limit, c.window, c.now);
    EveryTableIsValid(calls);
    RecordedAfter(Run(calls), c, c.key);
    var _ := CallDecides(Since(calls, c.key), Recorded(Run(calls), c.key), m, c.limit, c.window, c.now);
  }

  // ---------------------------------------------------------------------------------------------
  // The limiter itself

  class AuthLimiter {
    var attempts: map<Key, seq<Time>>
    var recency: seq<Key>
    ghost var calls: seq<Call>

    ghost predicate InStep()
      reads this
    {
      Table(attempts, recency) == Run(calls)
    }

    constructor ()
      ensures InStep() && calls == []
    {
      attempts, recency, calls := map[], [], [];
    }

    /** One attempt, at the time the clock shows. */
    method Attempt(key: Key, limit: int, window: int, now: Time) returns (allowed: bool)
      requires InStep()
      modifies this
      ensures InStep() && calls == old(calls) + [Call(key, limit, window, now)]
      ensures allowed == Allow(Run(old(calls)), Call(key, limit, window, now)).1
      ensures Ordered(calls) && FixedFor(calls, key, limit, window) ==>
              allowed == Room(Since(old(calls), key), limit, window, now)
    {
      hide Run, Since, Room, Without;
      ghost var c := Call(key, limit, window, now);
      ghost var t := Table(attempts, recency);
      EveryTableIsValid(calls);
      RunStep(calls, c);
      var cutoff := now - window;
      if key !in attempts {
        if |attempts| >= CAPACITY && recency != [] {
          var oldest := recency[|recency| - 1];
          attempts := attempts - {oldest};
          recency := recency[..|recency| - 1];
        }
        recency := [key] + recency;
        attempts := attempts[key := []];
      } else {
        recency := [key] + Without(recency, key);
      }
      assert Table(attempts, recency) == Touch(t, key);
      var entry := attempts[key];
      var kept: seq<Time> := [];
      for i := 0 to |entry|
        invariant kept == Kept(entry[..i], cutoff)
      {
        assert entry[..i + 1][..i] == entry[..i];
        if entry[i] > cutoff {
          kept := kept + [entry[i]];
        }
      }
      assert entry[..|entry|] == entry;
      if Ordered(calls + [c]) && FixedFor(calls + [c], key, limit, window) {
        AllowedIff(calls, c);
      }
      calls := calls + [c];
      if |kept| >= limit {
        attempts := attempts[key := kept];
        return false;
      }
      attempts := attempts[key := kept + [now]];
      return true;
    }
  }
}