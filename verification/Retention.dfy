/** Which ciphertexts are kept: the byte budget and the eviction that makes room for a new one. */
module Retention {
  import opened Basics
  import opened Tables

  type Bodies = map<U64, seq<Byte>>

  ghost predicate IsOldest(bodies: Bodies, r: U64) {
    r in bodies && forall s | s in bodies :: r <= s
  }

  ghost predicate IsLeast(keys: set<U64>, r: U64) {
    r in keys && forall s | s in keys :: r <= s
  }

  lemma {:induction false} LeastExists(keys: set<U64>)
    requires keys != {}
    ensures exists r :: IsLeast(keys, r)
  {
    var k :| k in keys;
    if keys == {k} {
      assert IsLeast(keys, k);
    } else {
      LeastExists(keys - {k});
      var m :| IsLeast(keys - {k}, m);
      var r := if k < m then k else m;
      forall s | s in keys
        ensures r <= s
      {
        assert s == k || s in keys - {k};
      }
      assert IsLeast(keys, r);
    }
  }

  ghost function Oldest(bodies: Bodies): (r: U64)
    requires bodies != map[]
    ensures IsOldest(bodies, r)
  {
    assert bodies.Keys != {} by {
      var k :| k in bodies;
      assert k in bodies.Keys;
    }
    LeastExists(bodies.Keys);
    var r :| IsLeast(bodies.Keys, r);
    r
  }

  /** The bytes stored. */
  ghost function Total(bodies: Bodies): nat
    decreases |bodies|
  {
    if bodies == map[] then 0
    else
      var r := Oldest(bodies);
      assert |bodies - {r}| < |bodies| by { RemoveShrinks(bodies, r); }
      |bodies[r]| + Total(bodies - {r})
  }

  lemma RemoveShrinks(bodies: Bodies, r: U64)
    requires r in bodies
    ensures |bodies - {r}| == |bodies| - 1
  {
    assert (bodies - {r}).Keys == bodies.Keys - {r};
  }

  lemma OldestUnique(bodies: Bodies, r: U64)
    requires IsOldest(bodies, r)
    ensures bodies != map[] && Oldest(bodies) == r
  {
  }

  /** Storing a newer revision adds exactly its size. */
  lemma {:induction false} TotalOfPut(bodies: Bodies, r: U64, body: seq<Byte>)
    requires forall s | s in bodies :: s < r
    ensures Total(bodies[r := body]) == Total(bodies) + |body|
    decreases |bodies|
  {
    var more := bodies[r := body];
    if bodies == map[] {
      OldestUnique(more, r);
      assert more - {r} == map[];
    } else {
      var k := Oldest(bodies);
      OldestUnique(more, k);
      RemoveShrinks(bodies, k);
      TotalOfPut(bodies - {k}, r, body);
      assert more - {k} == (bodies - {k})[r := body];
    }
  }

  /** Removing any body frees its size. */
  lemma {:induction false} TotalOfRemove(bodies: Bodies, r: U64)
    requires r in bodies
    ensures Total(bodies) == Total(bodies - {r}) + |bodies[r]|
    decreases |bodies|
  {
    var k := Oldest(bodies);
    if k != r {
      RemoveShrinks(bodies, k);
      TotalOfRemove(bodies - {k}, r);
      var less := bodies - {r};
      OldestUnique(less, k);
      assert less - {k} == bodies - {k} - {r};
    }
  }

  /** Dropping bodies never raises the total. */
  lemma {:induction false} TotalOfKeep(bodies: Bodies, kept: Bodies)
    requires forall s | s in kept :: s in bodies && kept[s] == bodies[s]
    ensures Total(kept) <= Total(bodies)
    decreases |bodies|
  {
    if bodies == map[] {
      assert kept == map[];
    } else {
      var k := Oldest(bodies);
      RemoveShrinks(bodies, k);
      TotalOfKeep(bodies - {k}, kept - {k});
      if k in kept {
        TotalOfRemove(kept, k);
      } else {
        assert kept - {k} == kept;
      }
    }
  }

  /** Evicts oldest first until the new body fits, but never the current revision. */
  ghost function Evict(bodies: Bodies, current: U64, incoming: nat, budget: nat): Result<Bodies, Error>
    decreases |bodies|
  {
    if Total(bodies) + incoming <= budget then Ok(bodies)
    else if bodies == map[] then Err(Quota)
    else
      var r := Oldest(bodies);
      if r >= current then Err(Quota)
      else
        assert |bodies - {r}| < |bodies| by { RemoveShrinks(bodies, r); }
        Evict(bodies - {r}, current, incoming, budget)
  }

  ghost function MakeRoom(bodies: Bodies, current: U64, incoming: nat, budget: nat): Result<Bodies, Error> {
    if incoming > budget then Err(Quota) else Evict(bodies, current, incoming, budget)
  }

  /** The stored revisions are an unbroken run that ends at the current one. */
  ghost predicate RunEndsAt(bodies: Bodies, current: U64) {
    && (forall r | r in bodies :: 1 <= r <= current)
    && (forall r: U64, s: U64 | r in bodies && r <= s <= current :: s in bodies)
    && (current > 0 ==> current in bodies)
  }

  function From(bodies: Bodies, low: nat): Bodies {
    map r | r in bodies && low <= r :: bodies[r]
  }

  /** Eviction keeps a suffix of the run: nothing newer than an evicted revision goes, the current one
      stays, the new body fits, and one more kept revision would not have fitted. */
  lemma {:induction false} EvictKeepsSuffix(bodies: Bodies, current: U64, incoming: nat, budget: nat)
    requires RunEndsAt(bodies, current)
    requires Evict(bodies, current, incoming, budget).Ok?
    ensures
      var kept := Evict(bodies, current, incoming, budget).value;
      && RunEndsAt(kept, current)
      && Total(kept) + incoming <= budget
      && (exists low: nat :: IsSuffix(bodies, kept, low, incoming, budget))
    decreases |bodies|
  {
    hide Evict, Total, IsSuffix, Oldest;
    EvictStep(bodies, current, incoming, budget);
    var kept := Evict(bodies, current, incoming, budget).value;
    if Total(bodies) + incoming <= budget {
      WholeIsSuffix(bodies, incoming, budget);
    } else {
      var r := Oldest(bodies);
      var less := bodies - {r};
      RemoveShrinks(bodies, r);
      OldestGone(bodies, current, r);
      EvictKeepsSuffix(less, current, incoming, budget);
      var low: nat :| IsSuffix(less, kept, low, incoming, budget);
      SuffixGrows(bodies, kept, r, low, incoming, budget);
    }
  }

  /** One round of eviction. */
  lemma EvictStep(bodies: Bodies, current: U64, incoming: nat, budget: nat)
    requires Evict(bodies, current, incoming, budget).Ok?
    ensures Total(bodies) + incoming <= budget ==> Evict(bodies, current, incoming, budget).value == bodies
    ensures Total(bodies) + incoming > budget ==>
              && bodies != map[] && Oldest(bodies) != current
              && Evict(bodies, current, incoming, budget) == Evict(bodies - {Oldest(bodies)}, current, incoming, budget)
  {
    hide Total, Oldest;
  }

  lemma WholeIsSuffix(bodies: Bodies, incoming: nat, budget: nat)
    ensures IsSuffix(bodies, bodies, 0, incoming, budget)
  {
    hide Total;
    assert From(bodies, 0) == bodies;
  }

  /** Without its oldest revision a run still ends where it ended. */
  lemma OldestGone(bodies: Bodies, current: U64, r: U64)
    requires RunEndsAt(bodies, current) && IsOldest(bodies, r) && r != current
    ensures RunEndsAt(bodies - {r}, current)
  {
  }

  /** `kept` is what is left from `low` on, and if anything went, the next older revision would not fit. */
  ghost predicate IsSuffix(bodies: Bodies, kept: Bodies, low: nat, incoming: nat, budget: nat) {
    && kept == From(bodies, low)
    && forall s: U64 | s in bodies && s !in kept :: Total(From(bodies, s)) + incoming > budget
  }

  /** Above the oldest revision, removing it makes no difference. */
  lemma FromAbove(bodies: Bodies, r: U64, low: nat, above: nat)
    requires IsOldest(bodies, r)
    requires above == if low > r then low else r + 1
    ensures From(bodies - {r}, low) == From(bodies, above)
  {
    var a, b := From(bodies - {r}, low), From(bodies, above);
    assert forall s: U64 :: s in a <==> s in b;
  }

  lemma SuffixGrows(bodies: Bodies, kept: Bodies, r: U64, low: nat, incoming: nat, budget: nat)
    requires IsOldest(bodies, r)
    requires Total(bodies) + incoming > budget
    requires IsSuffix(bodies - {r}, kept, low, incoming, budget)
    ensures exists l: nat :: IsSuffix(bodies, kept, l, incoming, budget)
  {
    hide Total, From;
    var l := if low > r then low else r + 1;
    FromAbove(bodies, r, low, l);
    forall s: U64 | s in bodies && s !in kept
      ensures Total(From(bodies, s)) + incoming > budget
    {
      if s == r {
        FromOldest(bodies, r);
      } else {
        FromAbove(bodies, r, s, s);
        assert s in bodies - {r};
      }
    }
    assert IsSuffix(bodies, kept, l, incoming, budget);
  }

  lemma FromOldest(bodies: Bodies, r: U64)
    requires IsOldest(bodies, r)
    ensures From(bodies, r) == bodies
  {
  }

  // ---------------------------------------------------------------------------------------------
  // When there is room

  ghost predicate SizesWithin(bodies: Bodies, limit: nat) {
    forall r | r in bodies :: |bodies[r]| <= limit
  }

  /** What a run that ends at the current revision cannot give up. */
  ghost function Unevictable(bodies: Bodies, current: U64): nat {
    if current in bodies then |bodies[current]| else 0
  }

  /** Room is refused exactly when the current body and the new one together exceed the budget. */
  lemma {:induction false} EvictSucceedsIff(bodies: Bodies, current: U64, incoming: nat, budget: nat)
    requires RunEndsAt(bodies, current)
    ensures Evict(bodies, current, incoming, budget).Ok? <==> Unevictable(bodies, current) + incoming <= budget
    decreases |bodies|
  {
    if bodies != map[] {
      var r := Oldest(bodies);
      RemoveShrinks(bodies, r);
      assert current in bodies;
      TotalOfRemove(bodies, current);
      if r < current {
        EvictSucceedsIff(bodies - {r}, current, incoming, budget);
      } else {
        assert bodies - {r} == map[] by {
          assert forall s: U64 | s in bodies :: s == r;
        }
      }
    }
  }

  lemma MakeRoomSucceedsIff(bodies: Bodies, current: U64, incoming: nat, budget: nat)
    requires RunEndsAt(bodies, current)
    ensures MakeRoom(bodies, current, incoming, budget).Ok? <==> Unevictable(bodies, current) + incoming <= budget
  {
    EvictSucceedsIff(bodies, current, incoming, budget);
  }

  /** With a budget of two largest bodies, a valid upload is never refused for space. */
  lemma TwoBodiesAlwaysFit(bodies: Bodies, current: U64, incoming: nat, budget: nat, largest: nat)
    requires RunEndsAt(bodies, current)
    requires SizesWithin(bodies, largest)
    requires incoming <= largest && 2 * largest <= budget
    ensures MakeRoom(bodies, current, incoming, budget).Ok?
  {
    MakeRoomSucceedsIff(bodies, current, incoming, budget);
  }

  // ---------------------------------------------------------------------------------------------
  // The eviction loop

  /** The oldest stored revision, found by scanning. */
  method OldestCiphertext(bodies: Bodies) returns (r: Option<U64>)
    ensures r.None? <==> bodies == map[]
    ensures r.Some? ==> r.value == Oldest(bodies)
  {
    r := None;
    var left := bodies.Keys;
    while left != {}
      invariant left <= bodies.Keys
      invariant r.None? ==> left == bodies.Keys
      invariant r.Some? ==> r.value in bodies && forall s | s in bodies && s !in left :: r.value <= s
      decreases |left|
    {
      var s :| s in left;
      if r.None? || s < r.value {
        r := Some(s);
      }
      left := left - {s};
    }
    if r.None? {
      assert bodies.Keys == {};
    } else {
      OldestUnique(bodies, r.value);
    }
  }

  /** Totals a table by scanning it. */
  method CiphertextBytes(bodies: Bodies) returns (total: nat)
    ensures total == Total(bodies)
  {
    total := 0;
    var left := bodies;
    while left != map[]
      invariant total + Total(left) == Total(bodies)
      decreases |left|
    {
      var s :| s in left.Keys;
      TotalOfRemove(left, s);
      RemoveShrinks(left, s);
      total := total + |left[s]|;
      left := left - {s};
    }
  }

  /** Frees space step by step, keeping a running byte count. */
  method MakeRoomLoop(bodies: Bodies, current: U64, incoming: nat, budget: nat) returns (r: Result<Bodies, Error>)
    ensures r == MakeRoom(bodies, current, incoming, budget)
  {
    if incoming > budget {
      return Err(Quota);
    }
    var table: Bodies := bodies;
    var stored := CiphertextBytes(table);
    while stored + incoming > budget
      invariant stored == Total(table)
      invariant Evict(bodies, current, incoming, budget) == Evict(table, current, incoming, budget)
      decreases |table|
    {
      var oldest := OldestCiphertext(table);
      if oldest.None? || oldest.value >= current {
        return Err(Quota);
      }
      RemoveShrinks(table, oldest.value);
      TotalOfRemove(table, oldest.value);
      stored := stored - |table[oldest.value]|;
      table := table - {oldest.value};
    }
    return Ok(table);
  }
}
