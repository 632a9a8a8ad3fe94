/** What happens when a recovery is itself interrupted and started again. */
module RestoreReruns {
  import opened Basics
  import opened Restore

  function AsideOf(d: Disk): Dir {
    if d.aside.Some? then d.aside.value else map[]
  }

  /** A recovery cut off after k of its steps. */
  function Interrupt(d: Disk, k: nat): Disk {
    if d.journal.None? then d
    else
      var plan := RecoveryPlan(d.journal.value);
      Exec(d, if k <= |plan| then plan[..k] else plan)
  }

  /** Recoveries cut off again and again. */
  function InterruptAll(d: Disk, cuts: seq<nat>): Disk {
    if cuts == [] then d else Interrupt(InterruptAll(d, cuts[..|cuts| - 1]), cuts[|cuts| - 1])
  }

  // ---------------------------------------------------------------------------------------------
  // What a completed rollback leaves in place

  lemma {:induction false} PutBacksWithoutAside(d: Disk, items: seq<Item>)
    requires d.aside.None?
    ensures Exec(d, PutBacks(items)) == d
    decreases |items|
  {
    hide Exec;
    if items == [] {
      ExecNothing(d);
    } else {
      var init, last := items[..|items| - 1], items[|items| - 1];
      assert PutBacks(items) == PutBacks(init) + [PutBack(last)];
      PutBacksWithoutAside(d, init);
      ExecSnoc(d, PutBacks(init), PutBack(last));
    }
  }

  function ClearedOf(d: Disk, j: Journal): Dir {
    if j.phase == Installing then Cleared(d.data, d.staging, j.added) else d.data
  }

  lemma RollbackData(d: Disk, j: Journal)
    requires d.journal == Some(j) && j.phase != Committed
    ensures Recover(d).data == Refilled(ClearedOf(d, j), AsideOf(d), j.previous)
    ensures Recover(d).journal.None?
  {
    if d.aside.Some? {
      AfterRollback(d, d.aside.value, j);
    } else {
      hide Exec, Drops, PutBacks, Cleared;
      var drops := if j.phase == Installing then Drops(j.added) else [];
      var tail := [RemoveStaging, RemoveAside, RemoveJournal];
      assert RecoveryPlan(j) == (drops + PutBacks(j.previous)) + tail;
      ExecConcat(d, drops + PutBacks(j.previous), tail);
      ExecConcat(d, drops, PutBacks(j.previous));
      if j.phase == Installing {
        AfterDrops(d, j.added);
      } else {
        ExecNothing(d);
      }
      PutBacksWithoutAside(Exec(d, drops), j.previous);
      ExecThree(Exec(d, drops), RemoveStaging, RemoveAside, RemoveJournal);
      assert Refilled(ClearedOf(d, j), map[], j.previous) == ClearedOf(d, j);
    }
  }

  // ---------------------------------------------------------------------------------------------
  // Interrupted while the old items were being moved

  /** Every old item is in place or aside, unchanged, and nothing else is in place. */
  ghost predicate MovingOk(d: Disk, before: Dir) {
    && d.journal.Some? && d.journal.value.phase == MovingOld
    && (forall i | i in before ::
          && i in d.journal.value.previous
          && (if i in d.data then d.data[i] == before[i] else i in AsideOf(d) && AsideOf(d)[i] == before[i]))
    && (forall i | i in d.data :: i in before)
    && (forall i | i in AsideOf(d) :: i in before)
  }

  lemma MovingOkRecovers(d: Disk, before: Dir)
    requires MovingOk(d, before)
    ensures Recover(d).data == before && Recover(d).journal.None?
  {
    hide Recover;
    RollbackData(d, d.journal.value);
  }

  lemma MovingOkStep(d: Disk, before: Dir, a: Action)
    requires MovingOk(d, before)
    requires a.PutBack? || a.RemoveStaging? || a.RemoveAside?
    ensures MovingOk(Apply(d, a), before)
  {
  }

  lemma {:induction false} MovingOkPrefix(d: Disk, before: Dir, plan: seq<Action>)
    requires MovingOk(d, before)
    requires forall a | a in plan :: a.PutBack? || a.RemoveStaging? || a.RemoveAside?
    ensures MovingOk(Exec(d, plan), before)
    decreases |plan|
  {
    if plan != [] {
      hide MovingOk, Apply;
      MovingOkPrefix(d, before, plan[..|plan| - 1]);
      MovingOkStep(Exec(d, plan[..|plan| - 1]), before, plan[|plan| - 1]);
    }
  }

  lemma MovingInterrupt(d: Disk, before: Dir, k: nat)
    requires MovingOk(d, before)
    ensures MovingOk(Interrupt(d, k), before) || (Interrupt(d, k).data == before && Interrupt(d, k).journal.None?)
  {
    var plan := RecoveryPlan(d.journal.value);
    if k < |plan| {
      MovingOkPrefix(d, before, plan[..k]);
    } else {
      hide Exec;
      assert plan[..|plan|] == plan;
      MovingOkRecovers(d, before);
    }
  }

  /** In the first phase recovery can be interrupted at any steps, any number of times: the recovery that
      completes restores exactly the old items. */
  lemma {:induction false} MovingPhaseRerunnable(d: Disk, before: Dir, cuts: seq<nat>)
    requires MovingOk(d, before)
    ensures Recover(InterruptAll(d, cuts)).data == before
    ensures MovingOk(InterruptAll(d, cuts), before)
            || (InterruptAll(d, cuts).data == before && InterruptAll(d, cuts).journal.None?)
    decreases |cuts|
  {
    hide MovingOk, Exec, RecoveryPlan;
    if cuts != [] {
      MovingPhaseRerunnable(d, before, cuts[..|cuts| - 1]);
      var mid := InterruptAll(d, cuts[..|cuts| - 1]);
      if MovingOk(mid, before) {
        MovingInterrupt(mid, before, cuts[|cuts| - 1]);
      }
    }
    if MovingOk(InterruptAll(d, cuts), before) {
      MovingOkRecovers(InterruptAll(d, cuts), before);
    }
  }

  /** A swap that crashed while moving is such a disk. */
  lemma MovingCrash(d: Disk, k: nat)
    requires Ready(d) && k <= |Present(d.data, MANAGED)|
    ensures MovingOk(Exec(d, Swap(d)[..1 + k]), d.data)
  {
    MovingStates(d, k);
    hide Exec, Swap, MovingOk;
    MovingIsOk(d, Journal(MovingOld, Present(d.data, MANAGED), Present(d.staging, MANAGED)), k);
  }

  lemma MovingIsOk(d: Disk, j: Journal, k: nat)
    requires j.phase == MovingOld && j.previous == Present(d.data, MANAGED) && k <= |j.previous|
    ensures MovingOk(Moving(d, j, k), d.data)
  {
    PresentIsAll(d.data);
    hide Present;
    assert forall i | i in d.data :: i in Only(d.data, j.previous);
  }

  /** So a swap that crashed while moving the old items, and recoveries of it cut off at any steps any number of times,
      end with exactly the old items once a recovery completes. */
  lemma CrashWhileMoving(d: Disk, k: nat, cuts: seq<nat>)
    requires Ready(d) && k <= |Present(d.data, MANAGED)|
    ensures Recover(InterruptAll(Exec(d, Swap(d)[..1 + k]), cuts)).data == d.data
  {
    hide Exec, MovingOk, Recover;
    MovingCrash(d, k);
    MovingPhaseRerunnable(Exec(d, Swap(d)[..1 + k]), d.data, cuts);
  }

  // ---------------------------------------------------------------------------------------------
  // Interrupted after the commit

  ghost predicate CommittedOk(d: Disk, replacement: Dir, before: Dir) {
    d.data == replacement && d.aside == Some(before) && (d.journal.Some? ==> d.journal.value.phase == Committed)
  }

  lemma CommittedInterrupt(d: Disk, replacement: Dir, before: Dir, k: nat)
    requires CommittedOk(d, replacement, before)
    ensures CommittedOk(Interrupt(d, k), replacement, before)
  {
    if d.journal.Some? {
      ExecThree(d, RemoveStaging, RemoveJournal, RemoveJournal);
      var plan := RecoveryPlan(d.journal.value);
      if k <= 2 {
        assert plan[..k] == [] || plan[..k] == [RemoveStaging] || plan[..k] == plan;
      }
    }
  }

  /** After the commit recovery can be interrupted at will: the new items stay in place, the old ones aside. */
  lemma {:induction false} CommittedPhaseRerunnable(d: Disk, replacement: Dir, before: Dir, cuts: seq<nat>)
    requires CommittedOk(d, replacement, before)
    ensures CommittedOk(InterruptAll(d, cuts), replacement, before)
    ensures CommittedOk(Recover(InterruptAll(d, cuts)), replacement, before)
    decreases |cuts|
  {
    hide CommittedOk, Exec;
    if cuts != [] {
      CommittedPhaseRerunnable(d, replacement, before, cuts[..|cuts| - 1]);
      CommittedInterrupt(InterruptAll(d, cuts[..|cuts| - 1]), replacement, before, cuts[|cuts| - 1]);
    }
    var mid := InterruptAll(d, cuts);
    if mid.journal.Some? {
      CommittedInterrupt(mid, replacement, before, |RecoveryPlan(mid.journal.value)|);
      assert RecoveryPlan(mid.journal.value)[..|RecoveryPlan(mid.journal.value)|] == RecoveryPlan(mid.journal.value);
    }
  }

  /** So a swap that crashed at or after the commit ends with exactly the new items, and the old ones aside. */
  lemma CrashAfterCommit(d: Disk, n: nat, cuts: seq<nat>)
    requires Ready(d) && CommitPoint(d) <= n <= |Swap(d)|
    ensures
      var after := Recover(InterruptAll(Exec(d, Swap(d)[..n]), cuts));
      after.data == d.staging && after.aside == Some(d.data)
  {
    hide Exec, Swap, Recover, CommitPoint;
    CommittedStates(d, n);
    CommittedPhaseRerunnable(Exec(d, Swap(d)[..n]), d.staging, d.data, cuts);
  }

  // ---------------------------------------------------------------------------------------------
  // Interrupted while the new items were being installed

  /** Old items are aside, or back in place unchanged; anything else in place was installed from staging. */
  ghost predicate InstallingOk(d: Disk, before: Dir) {
    && d.journal.Some? && d.journal.value.phase == Installing
    && (forall i :: i in d.journal.value.previous <==> i in before)
    && (forall i | i in AsideOf(d) :: i in before && AsideOf(d)[i] == before[i])
    && (forall i | i in before && i !in AsideOf(d) :: i in d.data && d.data[i] == before[i])
    && (forall i | i in d.data && (i in AsideOf(d) || i !in before) :: i in d.journal.value.added && i !in d.staging)
  }

  /** No old item that also has a new version is back in place while its new version is gone. */
  predicate Untouched(d: Disk)
    requires d.journal.Some?
  {
    forall i | i in d.journal.value.previous && i in d.journal.value.added :: d.InAside(i) || i in d.staging
  }

  /** A recovery in this phase restores the old items if and only if none of them has already been put
      back over a staged version that is gone; otherwise it deletes one. */
  lemma InstallingRecoversIff(d: Disk, before: Dir)
    requires InstallingOk(d, before)
    ensures Recover(d).data == before <==> Untouched(d)
  {
    hide Recover;
    var j := d.journal.value;
    RollbackData(d, j);
    var after := Recover(d).data;
    if Untouched(d) {
      assert after == before;
    } else {
      var i :| i in j.previous && i in j.added && !d.InAside(i) && i !in d.staging;
      assert i !in after;
    }
  }

  /** A swap that crashed while installing recovers: nothing has been put back yet. */
  lemma InstallingCrash(d: Disk, k: nat)
    requires Ready(d) && k <= |Present(d.staging, MANAGED)|
    ensures
      var crashed := Exec(d, Swap(d)[..2 + |Present(d.data, MANAGED)| + k]);
      InstallingOk(crashed, d.data) && Untouched(crashed)
  {
    InstallingStates(d, k);
    hide Exec, Swap, InstallingOk, Untouched;
    InstallingIsOk(d, Journal(Installing, Present(d.data, MANAGED), Present(d.staging, MANAGED)), k);
  }

  lemma InstallingIsOk(d: Disk, j: Journal, k: nat)
    requires j.phase == Installing && j.previous == Present(d.data, MANAGED) && k <= |j.added|
    ensures InstallingOk(PartlyInstalled(d, j, k), d.data) && Untouched(PartlyInstalled(d, j, k))
  {
    PresentIsAll(d.data);
    assert forall i | i in d.data :: i in Only(d.data, j.previous);
    assert forall i | i in j.previous :: i in d.data;
  }

  lemma DropKeeps(d: Disk, before: Dir, i: Item)
    requires InstallingOk(d, before) && Untouched(d) && i in d.journal.value.added
    ensures InstallingOk(Apply(d, DropInstalled(i)), before) && Untouched(Apply(d, DropInstalled(i)))
  {
  }

  lemma PutBackKeeps(d: Disk, before: Dir, a: Action)
    requires InstallingOk(d, before)
    requires a.PutBack? || a.RemoveAside?
    ensures InstallingOk(Apply(d, a), before)
  {
  }

  /** Removing the staged versions loses sight of what was installed, not of the old items. */
  lemma RemoveStagingKeeps(d: Disk, before: Dir)
    requires InstallingOk(d, before)
    ensures InstallingOk(Apply(d, RemoveStaging), before)
  {
  }

  lemma {:induction false} DropsKeep(d: Disk, before: Dir, items: seq<Item>)
    requires InstallingOk(d, before) && Untouched(d)
    requires forall i | i in items :: i in d.journal.value.added
    ensures InstallingOk(Exec(d, Drops(items)), before) && Untouched(Exec(d, Drops(items)))
    ensures Exec(d, Drops(items)).journal == d.journal
    decreases |items|
  {
    hide Exec, InstallingOk, Untouched;
    if items == [] {
      ExecNothing(d);
    } else {
      var init, last := items[..|items| - 1], items[|items| - 1];
      assert Drops(items) == Drops(init) + [DropInstalled(last)];
      DropsKeep(d, before, init);
      ExecSnoc(d, Drops(init), DropInstalled(last));
      DropKeeps(Exec(d, Drops(init)), before, last);
    }
  }

  lemma {:induction false} TailKeeps(d: Disk, before: Dir, plan: seq<Action>)
    requires InstallingOk(d, before)
    requires forall a | a in plan :: a.PutBack? || a.RemoveAside? || a.RemoveStaging?
    ensures InstallingOk(Exec(d, plan), before)
    decreases |plan|
  {
    if plan != [] {
      hide InstallingOk, Apply;
      var init, last := plan[..|plan| - 1], plan[|plan| - 1];
      TailKeeps(d, before, init);
      if last.RemoveStaging? {
        RemoveStagingKeeps(Exec(d, init), before);
      } else {
        PutBackKeeps(Exec(d, init), before, last);
      }
    }
  }

  /** However far an interrupted recovery got before it removed the journal, the old items all survive
      on disk; whether the next recovery keeps them is decided by `Untouched`. */
  lemma InstallingInterrupt(d: Disk, before: Dir, k: nat)
    requires InstallingOk(d, before) && Untouched(d)
    requires k < |RecoveryPlan(d.journal.value)|
    ensures InstallingOk(Interrupt(d, k), before)
    ensures Recover(Interrupt(d, k)).data == before <==> Untouched(Interrupt(d, k))
  {
    hide Exec, InstallingOk, Untouched, Recover;
    JournalStays(d, before);
    var j := d.journal.value;
    var plan := RecoveryPlan(j);
    var drops := |j.added|;
    if k <= drops {
      MovesPrefix(j.added, k);
      assert plan[..k] == Drops(j.added)[..k];
      DropsKeep(d, before, j.added[..k]);
    } else {
      var rest := plan[drops..k];
      assert plan[..k] == Drops(j.added) + rest;
      ExecConcat(d, Drops(j.added), rest);
      DropsKeep(d, before, j.added);
      TailKeeps(Exec(d, Drops(j.added)), before, rest);
    }
    assert Interrupt(d, k) == Exec(d, plan[..k]);
    JournalStays(Interrupt(d, k), before);
    InstallingRecoversIff(Interrupt(d, k), before);
  }

  lemma JournalStays(d: Disk, before: Dir)
    requires InstallingOk(d, before)
    ensures d.journal.Some? && d.journal.value.phase == Installing
  {
  }

  /** The failing case: crash after installing the database, recovery cut off after putting the old one
      back, recovery again. The second pass takes the old database for the new one and deletes it. */
  lemma SecondRecoveryDeletes(was: Content, replacement: Content)
    ensures
      var d := Disk(map[Database := was], map[Database := replacement], Some(map[]), None);
      && Ready(d)
      && (exists n: nat, k: nat :: n <= |Swap(d)| && Recover(Interrupt(Exec(d, Swap(d)[..n]), k)).data == map[])
  {
    var d := Disk(map[Database := was], map[Database := replacement], Some(map[]), None);
    var previous, added := Present(d.data, MANAGED), Present(d.staging, MANAGED);
    assert Database in MANAGED by { EveryItemManaged(Database); }
    var j := Journal(Installing, previous, added);
    var n := 2 + |previous| + |added|;
    InstallingStates(d, |added|);
    assert added[..|added|] == added;
    PresentIsAll(d.staging);
    PresentIsAll(d.data);
    var crashed := Exec(d, Swap(d)[..n]);
    assert crashed == Disk(map[Database := replacement], map[], Some(map[Database := was]), Some(j));
    hide Exec;
    var k := |added| + |previous|;
    var plan := RecoveryPlan(j);
    assert plan[..k] == Drops(added) + PutBacks(previous);
    ExecConcat(crashed, Drops(added), PutBacks(previous));
    AfterDrops(crashed, added);
    var cleared := Exec(crashed, Drops(added));
    assert Cleared(crashed.data, crashed.staging, added) == map[];
    AfterPutBacks(cleared, map[Database := was], previous);
    assert Refilled(map[], map[Database := was], previous) == map[Database := was];
    assert LeftAside(map[], map[Database := was], previous) == map[];
    var again := Interrupt(crashed, k);
    assert again == Disk(map[Database := was], map[], Some(map[]), Some(j));
    RollbackData(again, j);
    assert Cleared(again.data, again.staging, added) == map[];
    assert Refilled(map[], map[], previous) == map[];
    assert n <= |Swap(d)| && Recover(Interrupt(Exec(d, Swap(d)[..n]), k)).data == map[];
  }
}
