/** The swap and the recovery as the loops that run them on a directory, with a crash after any number of
    steps; proved against the plans of `Restore`. */
module RestoreDirectory {
  import opened Basics
  import opened Restore

  lemma ExecNext(d: Disk, plan: seq<Action>, n: nat)
    requires n < |plan|
    ensures Exec(d, plan[..n + 1]) == Apply(Exec(d, plan[..n]), plan[n])
  {
    hide Apply;
    assert plan[..n + 1] == plan[..n] + [plan[n]];
    ExecSnoc(d, plan[..n], plan[n]);
  }

  lemma SwapPlanAt(previous: seq<Item>, added: seq<Item>)
    ensures
      var plan, p, q := SwapPlan(previous, added), |previous|, |added|;
      && |plan| == p + q + 5
      && plan[0] == WriteJournal(Journal(MovingOld, previous, added))
      && (forall k | 0 <= k < p :: plan[1 + k] == MoveOld(previous[k]))
      && plan[1 + p] == WriteJournal(Journal(Installing, previous, added))
      && (forall k | 0 <= k < q :: plan[2 + p + k] == Install(added[k]))
      && plan[2 + p + q] == WriteJournal(Journal(Committed, previous, added))
      && plan[3 + p + q] == RemoveStaging && plan[4 + p + q] == RemoveJournal
  {
  }

  /** Both rollback plans end by putting back, then clearing up. */
  ghost predicate EndsInPutBack(plan: seq<Action>, n: nat, names: seq<Item>) {
    && n + |names| + 3 == |plan|
    && (forall k | 0 <= k < |names| :: plan[n + k] == PutBack(names[k]))
    && plan[|plan| - 3] == RemoveStaging && plan[|plan| - 2] == RemoveAside && plan[|plan| - 1] == RemoveJournal
  }

  lemma PlanLength(plan: seq<Action>, n: nat, names: seq<Item>)
    requires EndsInPutBack(plan, n, names)
    ensures |plan| == n + |names| + 3
  {
  }

  lemma MovingPlanAt(j: Journal)
    requires j.phase == MovingOld
    ensures EndsInPutBack(RecoveryPlan(j), 0, j.previous)
  {
  }

  lemma InstallingPlanAt(j: Journal)
    requires j.phase == Installing
    ensures EndsInPutBack(RecoveryPlan(j), |j.added|, j.previous)
    ensures forall k | 0 <= k < |j.added| :: RecoveryPlan(j)[k] == DropInstalled(j.added[k])
  {
  }

  class DataDirectory {
    var data: Dir
    var staging: Dir
    var aside: Option<Dir>
    var journal: Option<Journal>

    ghost function View(): Disk
      reads this
    {
      Disk(data, staging, aside, journal)
    }

    /** The items that exist where they are expected, in the managed order. */
    method Scan() returns (previous: seq<Item>, added: seq<Item>)
      ensures previous == Present(data, MANAGED) && added == Present(staging, MANAGED)
    {
      previous, added := [], [];
      var n := 0;
      while n < |MANAGED|
        invariant 0 <= n <= |MANAGED|
        invariant previous == Present(data, MANAGED[..n]) && added == Present(staging, MANAGED[..n])
      {
        var name := MANAGED[n];
        assert MANAGED[..n + 1][..n] == MANAGED[..n] && MANAGED[..n + 1][n] == name;
        if name in data {
          previous := previous + [name];
        }
        if name in staging {
          added := added + [name];
        }
        n := n + 1;
      }
      assert MANAGED[..n] == MANAGED;
    }

    /** Moves the named items aside, one rename each; `budget` steps are left before the crash. */
    method MoveAll(names: seq<Item>, budget: nat, ghost start: Disk, ghost plan: seq<Action>, ghost n: nat)
        returns (left: Option<nat>)
      requires n + |names| <= |plan| && forall k | 0 <= k < |names| :: plan[n + k] == MoveOld(names[k])
      requires View() == Exec(start, plan[..n]) && aside.Some?
      modifies this`data, this`aside
      ensures left.Some? ==> budget == |names| + left.value && View() == Exec(start, plan[..n + |names|]) && aside.Some?
      ensures left.None? ==> budget < |names| && View() == Exec(start, plan[..n + budget])
    {
      hide Exec;
      var i := 0;
      while i < |names|
        invariant 0 <= i <= |names| && i <= budget
        invariant View() == Exec(start, plan[..n + i]) && aside.Some?
      {
        if budget == i {
          return None;
        }
        ExecNext(start, plan, n + i);
        var name := names[i];
        if name in data {
          aside := Some(aside.value[name := data[name]]);
          data := data - {name};
        }
        i := i + 1;
      }
      return Some(budget - |names|);
    }

    /** Installs the named items from staging. */
    method InstallAll(names: seq<Item>, budget: nat, ghost start: Disk, ghost plan: seq<Action>, ghost n: nat)
        returns (left: Option<nat>)
      requires n + |names| <= |plan| && forall k | 0 <= k < |names| :: plan[n + k] == Install(names[k])
      requires View() == Exec(start, plan[..n])
      modifies this`data, this`staging
      ensures left.Some? ==> budget == |names| + left.value && View() == Exec(start, plan[..n + |names|])
      ensures left.None? ==> budget < |names| && View() == Exec(start, plan[..n + budget])
    {
      hide Exec;
      var i := 0;
      while i < |names|
        invariant 0 <= i <= |names| && i <= budget
        invariant View() == Exec(start, plan[..n + i])
      {
        if budget == i {
          return None;
        }
        ExecNext(start, plan, n + i);
        var name := names[i];
        if name in staging {
          data := data[name := staging[name]];
          staging := staging - {name};
        }
        i := i + 1;
      }
      return Some(budget - |names|);
    }

    /** Removes the named items that are no longer staged, so were installed. */
    method DropAll(names: seq<Item>, budget: nat, ghost start: Disk, ghost plan: seq<Action>, ghost n: nat)
        returns (left: Option<nat>)
      requires n + |names| <= |plan| && forall k | 0 <= k < |names| :: plan[n + k] == DropInstalled(names[k])
      requires View() == Exec(start, plan[..n])
      modifies this`data
      ensures left.Some? ==> budget == |names| + left.value && View() == Exec(start, plan[..n + |names|])
      ensures left.None? ==> budget < |names| && View() == Exec(start, plan[..n + budget])
    {
      hide Exec;
      var i := 0;
      while i < |names|
        invariant 0 <= i <= |names| && i <= budget
        invariant View() == Exec(start, plan[..n + i])
      {
        if budget == i {
          return None;
        }
        ExecNext(start, plan, n + i);
        var name := names[i];
        if name !in staging {
          data := data - {name};
        }
        i := i + 1;
      }
      return Some(budget - |names|);
    }

    /** Puts the named items back where they are missing. */
    method PutBackAll(names: seq<Item>, budget: nat, ghost start: Disk, ghost plan: seq<Action>, ghost n: nat)
        returns (left: Option<nat>)
      requires n + |names| <= |plan| && forall k | 0 <= k < |names| :: plan[n + k] == PutBack(names[k])
      requires View() == Exec(start, plan[..n])
      modifies this`data, this`aside
      ensures left.Some? ==> budget == |names| + left.value && View() == Exec(start, plan[..n + |names|])
      ensures left.None? ==> budget < |names| && View() == Exec(start, plan[..n + budget])
    {
      hide Exec;
      var i := 0;
      while i < |names|
        invariant 0 <= i <= |names| && i <= budget
        invariant View() == Exec(start, plan[..n + i])
      {
        if budget == i {
          return None;
        }
        ExecNext(start, plan, n + i);
        var name := names[i];
        var isAside, inPlace := aside.Some? && name in aside.value, name in data;
        if isAside && !inPlace {
          data := data[name := aside.value[name]];
          aside := Some(aside.value - {name});
        }
        i := i + 1;
      }
      return Some(budget - |names|);
    }

    /** Replaces the managed items by the staged ones; a crash comes after `crashAfter` steps, if the swap
        has that many. */
    method RunSwap(crashAfter: nat) returns (completed: bool)
      requires Ready(View())
      modifies this
      ensures
        var plan := Swap(old(View()));
        && completed == (crashAfter >= |plan|)
        && View() == Exec(old(View()), plan[..if completed then |plan| else crashAfter])
    {
      ghost var start := View();
      var previous, added := Scan();
      ghost var plan := SwapPlan(previous, added);
      ghost var p, q := |previous|, |added|;
      SwapPlanAt(previous, added);
      hide Exec, SwapPlan, Present, Moves, Installs;
      assert plan[..0] == [];
      ExecNothing(start);
      if crashAfter == 0 {
        return false;
      }
      ExecNext(start, plan, 0);
      journal := Some(Journal(MovingOld, previous, added));
      var left := MoveAll(previous, crashAfter - 1, start, plan, 1);
      if left.None? || left.value == 0 {
        return false;
      }
      ExecNext(start, plan, 1 + p);
      journal := Some(Journal(Installing, previous, added));
      left := InstallAll(added, left.value - 1, start, plan, 2 + p);
      if left.None? || left.value == 0 {
        return false;
      }
      ExecNext(start, plan, 2 + p + q);
      journal := Some(Journal(Committed, previous, added));
      completed := Cleanup(start, plan, 3 + p + q, left.value - 1);
    }

    /** Removes staging and journal of a committed restore. */
    method Cleanup(ghost start: Disk, ghost plan: seq<Action>, ghost n: nat, crashAfter: nat) returns (completed: bool)
      requires n + 2 == |plan| && plan[n] == RemoveStaging && plan[n + 1] == RemoveJournal
      requires View() == Exec(start, plan[..n])
      modifies this`staging, this`journal
      ensures completed == (crashAfter >= 2)
      ensures View() == Exec(start, plan[..if completed then |plan| else n + crashAfter])
    {
      hide Exec;
      if crashAfter == 0 {
        return false;
      }
      ExecNext(start, plan, n);
      staging := map[];
      if crashAfter == 1 {
        return false;
      }
      ExecNext(start, plan, n + 1);
      journal := None;
      return true;
    }

    /** Undoes an unfinished swap or finishes a committed one, by what the journal says; it may itself be
        cut off after `crashAfter` steps. */
    method RunRecovery(crashAfter: nat) returns (completed: bool)
      modifies this
      ensures old(journal).None? ==> completed && View() == old(View())
      ensures
        old(journal).Some? ==>
          var plan := RecoveryPlan(old(journal).value);
          && completed == (crashAfter >= |plan|)
          && View() == Exec(old(View()), plan[..if completed then |plan| else crashAfter])
    {
      hide Exec;
      if journal.None? {
        return true;
      }
      var j := journal.value;
      ghost var start, plan := View(), RecoveryPlan(j);
      assert plan[..0] == [];
      ExecNothing(start);
      if j.phase == Committed {
        completed := Cleanup(start, plan, 0, crashAfter);
      } else {
        hide RecoveryPlan;
        completed := RollBack(j, crashAfter, start, plan);
      }
    }

    /** Takes out what was installed, puts the old items back, and clears up. */
    method RollBack(j: Journal, crashAfter: nat, ghost start: Disk, ghost plan: seq<Action>) returns (completed: bool)
      requires j.phase != Committed && plan == RecoveryPlan(j) && View() == start
      modifies this
      ensures completed == (crashAfter >= |plan|)
      ensures View() == Exec(start, plan[..if completed then |plan| else crashAfter])
    {
      hide Exec, RecoveryPlan, Apply, EndsInPutBack;
      assert plan[..0] == [];
      ExecNothing(start);
      if j.phase == Installing {
        InstallingPlanAt(j);
        PlanLength(plan, |j.added|, j.previous);
        var left := DropAll(j.added, crashAfter, start, plan, 0);
        if left.None? {
          return false;
        }
        completed := PutBackAndFinish(j.previous, left.value, start, plan, |j.added|);
      } else {
        MovingPlanAt(j);
        PlanLength(plan, 0, j.previous);
        completed := PutBackAndFinish(j.previous, crashAfter, start, plan, 0);
      }
    }

    method PutBackAndFinish(names: seq<Item>, budget: nat, ghost start: Disk, ghost plan: seq<Action>, ghost n: nat)
        returns (completed: bool)
      requires EndsInPutBack(plan, n, names) && n <= |plan|
      requires View() == Exec(start, plan[..n])
      modifies this
      ensures completed == (budget >= |plan| - n)
      ensures n + budget <= |plan| || completed
      ensures View() == Exec(start, plan[..if completed then |plan| else n + budget])
    {
      hide Exec, Apply;
      var left := PutBackAll(names, budget, start, plan, n);
      if left.None? {
        return false;
      }
      completed := FinishRollback(left.value, start, plan, n + |names|);
    }

    method FinishRollback(budget: nat, ghost start: Disk, ghost plan: seq<Action>, ghost n: nat)
        returns (completed: bool)
      requires n + 3 == |plan| && plan[n] == RemoveStaging && plan[n + 1] == RemoveAside && plan[n + 2] == RemoveJournal
      requires View() == Exec(start, plan[..n])
      modifies this`staging, this`aside, this`journal
      ensures completed == (budget >= 3)
      ensures View() == Exec(start, plan[..if completed then |plan| else n + budget])
    {
      hide Exec;
      if budget == 0 {
        return false;
      }
      ExecNext(start, plan, n);
      staging := map[];
      if budget == 1 {
        return false;
      }
      ExecNext(start, plan, n + 1);
      if aside == Some(map[]) {
        aside := None;
      }
      if budget == 2 {
        return false;
      }
      ExecNext(start, plan, n + 2);
      journal := None;
      return true;
    }

    /** A swap that a crash may cut short, and the recovery at the next start: all old or all new. */
    method RestoreOnce(crashAfter: nat) returns (completed: bool)
      requires Ready(View())
      modifies this
      ensures journal.None?
      ensures data == old(data) || (data == old(staging) && aside == Some(old(data)))
      ensures completed ==> data == old(staging)
    {
      hide Exec, Recover, Swap;
      completed := RunSwap(crashAfter);
      ghost var n := if completed then |Swap(old(View()))| else crashAfter;
      AllOrNothing(old(View()), n);
      CommitWithin(old(View()));
      RecoverIsPlan(View());
      var done := RunRecovery(3 + (if journal.Some? then |journal.value.previous| + |journal.value.added| else 0));
    }
  }

  lemma CommitWithin(d: Disk)
    ensures CommitPoint(d) < |Swap(d)|
  {
    SwapPlanAt(Present(d.data, MANAGED), Present(d.staging, MANAGED));
  }

  lemma RecoverIsPlan(d: Disk)
    ensures d.journal.None? ==> Recover(d) == d
    ensures d.journal.Some? ==>
              var plan := RecoveryPlan(d.journal.value);
              plan[..|plan|] == plan && Recover(d) == Exec(d, plan)
                  && |plan| <= |d.journal.value.previous| + |d.journal.value.added| + 3
  {
  }
}
