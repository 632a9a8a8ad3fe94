/** Crash-safe replacement of a data directory: a journal with three phases, and the recovery that reads
    it. Every rename, removal and journal write is one atomic step, and a crash may come between any two. */
module Restore {
  import opened Basics

  /** The items a restore manages: database, its two side files, secrets and configuration. */
  datatype Item = Database | Wal | Shm | Secrets | Config

  const MANAGED: seq<Item> := [Database, Wal, Shm, Secrets, Config]

  type Content = seq<Byte>
  type Dir = map<Item, Content>

  datatype Phase = MovingOld | Installing | Committed

  /** `previous` lists the items in place before the swap, `added` the staged ones. */
  datatype Journal = Journal(phase: Phase, previous: seq<Item>, added: seq<Item>)

  /** The managed part of the data directory, the staged replacement, the directory the old items are
      moved to, and the journal. */
  datatype Disk = Disk(data: Dir, staging: Dir, aside: Option<Dir>, journal: Option<Journal>) {
    predicate InAside(i: Item) {
      aside.Some? && i in aside.value
    }
  }

  /** One atomic change. The last three are recovery's: each looks before it acts. */
  datatype Action =
    | WriteJournal(journal: Journal)
    | MoveOld(item: Item)
    | Install(item: Item)
    | RemoveStaging
    | RemoveJournal
    | DropInstalled(item: Item)
    | PutBack(item: Item)
    | RemoveAside

  function Apply(d: Disk, a: Action): Disk {
    match a
    case WriteJournal(j) => d.(journal := Some(j))
    case MoveOld(i) =>
      if i in d.data && d.aside.Some? then d.(data := d.data - {i}, aside := Some(d.aside.value[i := d.data[i]])) else d
    case Install(i) =>
      if i in d.staging then d.(data := d.data[i := d.staging[i]], staging := d.staging - {i}) else d
    case RemoveStaging => d.(staging := map[])
    case RemoveJournal => d.(journal := None)
    case DropInstalled(i) => if i in d.staging then d else d.(data := d.data - {i})
    case PutBack(i) =>
      if d.InAside(i) && i !in d.data then
        d.(data := d.data[i := d.aside.value[i]], aside := Some(d.aside.value - {i}))
      else d
    case RemoveAside => if d.aside == Some(map[]) then d.(aside := None) else d
  }

  function Exec(d: Disk, actions: seq<Action>): Disk {
    if actions == [] then d else Apply(Exec(d, actions[..|actions| - 1]), actions[|actions| - 1])
  }

  /** The listed items that exist in a directory. */
  function Present(dir: Dir, items: seq<Item>): (found: seq<Item>)
    ensures forall i :: i in found <==> i in items && i in dir
  {
    if items == [] then []
    else
      var init, last := items[..|items| - 1], items[|items| - 1];
      assert items == init + [last];
      Present(dir, init) + (if last in dir then [last] else [])
  }

  function Moves(items: seq<Item>): seq<Action> {
    seq(|items|, k requires 0 <= k < |items| => MoveOld(items[k]))
  }

  function Installs(items: seq<Item>): seq<Action> {
    seq(|items|, k requires 0 <= k < |items| => Install(items[k]))
  }

  function Drops(items: seq<Item>): seq<Action> {
    seq(|items|, k requires 0 <= k < |items| => DropInstalled(items[k]))
  }

  function PutBacks(items: seq<Item>): seq<Action> {
    seq(|items|, k requires 0 <= k < |items| => PutBack(items[k]))
  }

  /** What a swap does, step by step. */
  function SwapPlan(previous: seq<Item>, added: seq<Item>): seq<Action> {
    [WriteJournal(Journal(MovingOld, previous, added))] + Moves(previous)
    + [WriteJournal(Journal(Installing, previous, added))] + Installs(added)
    + [WriteJournal(Journal(Committed, previous, added)), RemoveStaging, RemoveJournal]
  }

  /** What a recovery does when it finds this journal. */
  function RecoveryPlan(j: Journal): seq<Action> {
    if j.phase == Committed then [RemoveStaging, RemoveJournal]
    else (if j.phase == Installing then Drops(j.added) else [])
         + PutBacks(j.previous) + [RemoveStaging, RemoveAside, RemoveJournal]
  }

  /** A recovery that completes. */
  function Recover(d: Disk): Disk {
    if d.journal.None? then d else Exec(d, RecoveryPlan(d.journal.value))
  }

  /** Where a swap starts: the replacement staged, an empty directory made for the old items. */
  predicate Ready(d: Disk) {
    d.journal.None? && d.aside == Some(map[])
  }

  function Swap(d: Disk): seq<Action> {
    SwapPlan(Present(d.data, MANAGED), Present(d.staging, MANAGED))
  }

  // ---------------------------------------------------------------------------------------------
  // Running plans

  lemma {:induction false} ExecConcat(d: Disk, a: seq<Action>, b: seq<Action>)
    ensures Exec(d, a + b) == Exec(Exec(d, a), b)
    decreases |b|
  {
    if b == [] {
      assert a + b == a;
    } else {
      var init := b[..|b| - 1];
      assert (a + b)[..|a + b| - 1] == a + init;
      ExecConcat(d, a, init);
    }
  }

  lemma ExecSnoc(d: Disk, actions: seq<Action>, a: Action)
    ensures Exec(d, actions + [a]) == Apply(Exec(d, actions), a)
  {
    assert (actions + [a])[..|actions|] == actions;
  }

  lemma ExecThree(d: Disk, a: Action, b: Action, c: Action)
    ensures Exec(d, [a]) == Apply(d, a)
    ensures Exec(d, [a, b]) == Apply(Apply(d, a), b)
    ensures Exec(d, [a, b, c]) == Apply(Apply(Apply(d, a), b), c)
  {
    hide Apply;
    ExecSnoc(d, [], a);
    ExecSnoc(d, [a], b);
    ExecSnoc(d, [a, b], c);
    assert [] + [a] == [a] && [a] + [b] == [a, b] && [a, b] + [c] == [a, b, c];
  }

  function Only(dir: Dir, items: seq<Item>): Dir {
    map i | i in dir && i in items :: dir[i]
  }

  function Without(dir: Dir, items: seq<Item>): Dir {
    map i | i in dir && i !in items :: dir[i]
  }

  lemma EveryItemManaged(i: Item)
    ensures i in MANAGED
  {
    assert MANAGED[0] == Database && MANAGED[1] == Wal && MANAGED[2] == Shm && MANAGED[3] == Secrets
           && MANAGED[4] == Config;
  }

  lemma PresentIsAll(dir: Dir)
    ensures Only(dir, Present(dir, MANAGED)) == dir
    ensures Without(dir, Present(dir, MANAGED)) == map[]
  {
    forall i: Item
      ensures i in MANAGED
    {
      EveryItemManaged(i);
    }
  }

  /** One more name moves one item from one side to the other. */
  lemma OneMore(dir: Dir, items: seq<Item>, i: Item)
    ensures i in Without(dir, items) ==> Without(dir, items + [i]) == Without(dir, items) - {i}
                                         && Only(dir, items + [i]) == Only(dir, items)[i := dir[i]]
                                         && Without(dir, items)[i] == dir[i]
    ensures i !in Without(dir, items) ==>
              Without(dir, items + [i]) == Without(dir, items) && Only(dir, items + [i]) == Only(dir, items)
  {
    if i in Without(dir, items) {
      assert Without(dir, items + [i]) == Without(dir, items) - {i};
    }
  }

  lemma NoneYet(dir: Dir)
    ensures Without(dir, []) == dir && Only(dir, []) == map[]
  {
  }

  lemma {:induction false} AfterMoves(d: Disk, items: seq<Item>)
    requires d.aside == Some(map[])
    ensures Exec(d, Moves(items)) == d.(data := Without(d.data, items), aside := Some(Only(d.data, items)))
    decreases |items|
  {
    hide Exec, Only, Without;
    if items == [] {
      ExecNothing(d);
      NoneYet(d.data);
    } else {
      var init, last := items[..|items| - 1], items[|items| - 1];
      assert items == init + [last] && Moves(items) == Moves(init) + [MoveOld(last)];
      AfterMoves(d, init);
      ExecSnoc(d, Moves(init), MoveOld(last));
      OneMore(d.data, init, last);
    }
  }

  lemma {:induction false} AfterInstalls(d: Disk, items: seq<Item>)
    requires d.data == map[]
    ensures Exec(d, Installs(items)) == d.(data := Only(d.staging, items), staging := Without(d.staging, items))
    decreases |items|
  {
    hide Exec, Only, Without;
    if items == [] {
      ExecNothing(d);
      NoneYet(d.staging);
    } else {
      var init, last := items[..|items| - 1], items[|items| - 1];
      assert items == init + [last] && Installs(items) == Installs(init) + [Install(last)];
      AfterInstalls(d, init);
      ExecSnoc(d, Installs(init), Install(last));
      OneMore(d.staging, init, last);
    }
  }

  /** The data directory without the listed items that are no longer staged. */
  function Cleared(data: Dir, staging: Dir, items: seq<Item>): Dir {
    map i | i in data && (i in staging || i !in items) :: data[i]
  }

  lemma {:induction false} AfterDrops(d: Disk, items: seq<Item>)
    ensures Exec(d, Drops(items)) == d.(data := Cleared(d.data, d.staging, items))
    decreases |items|
  {
    if items != [] {
      var init, last := items[..|items| - 1], items[|items| - 1];
      assert items == init + [last];
      assert Drops(items)[..|items| - 1] == Drops(init);
      AfterDrops(d, init);
    }
  }

  /** What putting the listed items back leaves in place, and what it leaves aside. */
  function Refilled(data: Dir, aside: Dir, items: seq<Item>): Dir {
    map i | i in data.Keys + aside.Keys && (i in data || i in items) :: if i in data then data[i] else aside[i]
  }

  function LeftAside(data: Dir, aside: Dir, items: seq<Item>): Dir {
    map i | i in aside && (i !in items || i in data) :: aside[i]
  }

  lemma PutBackOne(d: Disk, aside: Dir, items: seq<Item>, i: Item)
    ensures Apply(d.(data := Refilled(d.data, aside, items), aside := Some(LeftAside(d.data, aside, items))),
                  PutBack(i)) ==
            d.(data := Refilled(d.data, aside, items + [i]), aside := Some(LeftAside(d.data, aside, items + [i])))
  {
    RefilledGrows(d.data, aside, items, i);
    LeftAsideShrinks(d.data, aside, items, i);
    hide Refilled, LeftAside;
  }

  lemma RefilledGrows(data: Dir, aside: Dir, items: seq<Item>, i: Item)
    ensures i in Refilled(data, aside, items) || i !in LeftAside(data, aside, items) ==>
              Refilled(data, aside, items + [i]) == Refilled(data, aside, items)
    ensures i !in Refilled(data, aside, items) && i in LeftAside(data, aside, items) ==>
              Refilled(data, aside, items + [i]) == Refilled(data, aside, items)[i := LeftAside(data, aside, items)[i]]
  {
  }

  lemma LeftAsideShrinks(data: Dir, aside: Dir, items: seq<Item>, i: Item)
    ensures i in Refilled(data, aside, items) || i !in LeftAside(data, aside, items) ==>
              LeftAside(data, aside, items + [i]) == LeftAside(data, aside, items)
    ensures i !in Refilled(data, aside, items) && i in LeftAside(data, aside, items) ==>
              LeftAside(data, aside, items + [i]) == LeftAside(data, aside, items) - {i}
  {
  }

  /** Putting back fills the gaps in the data directory and nothing else. */
  lemma {:induction false} AfterPutBacks(d: Disk, aside: Dir, items: seq<Item>)
    requires d.aside == Some(aside)
    ensures Exec(d, PutBacks(items)) ==
            d.(data := Refilled(d.data, aside, items), aside := Some(LeftAside(d.data, aside, items)))
    decreases |items|
  {
    if items != [] {
      var init, last := items[..|items| - 1], items[|items| - 1];
      assert items == init + [last];
      assert PutBacks(items)[..|items| - 1] == PutBacks(init);
      AfterPutBacks(d, aside, init);
      hide Exec;
      ExecSnoc(d, PutBacks(init), PutBack(last));
      assert PutBacks(items) == PutBacks(init) + [PutBack(last)];
      PutBackOne(d, aside, init, last);
    } else {
      assert Refilled(d.data, aside, []) == d.data;
      assert LeftAside(d.data, aside, []) == aside;
    }
  }

  // ---------------------------------------------------------------------------------------------
  // Where a crashed swap can be

  /** The old items of the first k names have been moved. */
  function Moving(d: Disk, j: Journal, k: nat): Disk
    requires k <= |j.previous|
  {
    var moved := j.previous[..k];
    Disk(Without(d.data, moved), d.staging, Some(Only(d.data, moved)), Some(j))
  }

  /** All old items are aside and the first k new ones are in place. */
  function PartlyInstalled(d: Disk, j: Journal, k: nat): Disk
    requires k <= |j.added|
  {
    var installed := j.added[..k];
    Disk(Only(d.staging, installed), Without(d.staging, installed), Some(d.data), Some(j))
  }

  /** The number of steps after which the swap counts as done. */
  function CommitPoint(d: Disk): nat {
    |Present(d.data, MANAGED)| + |Present(d.staging, MANAGED)| + 3
  }

  lemma MovesPrefix(items: seq<Item>, k: nat)
    requires k <= |items|
    ensures Moves(items)[..k] == Moves(items[..k])
    ensures Installs(items)[..k] == Installs(items[..k])
    ensures Drops(items)[..k] == Drops(items[..k])
    ensures PutBacks(items)[..k] == PutBacks(items[..k])
  {
  }

  lemma MovingStates(d: Disk, k: nat)
    requires Ready(d) && k <= |Present(d.data, MANAGED)|
    ensures Exec(d, Swap(d)[..1 + k]) ==
            Moving(d, Journal(MovingOld, Present(d.data, MANAGED), Present(d.staging, MANAGED)), k)
  {
    var previous, added := Present(d.data, MANAGED), Present(d.staging, MANAGED);
    var start := [WriteJournal(Journal(MovingOld, previous, added))];
    MovesPrefix(previous, k);
    assert Swap(d)[..1 + k] == start + Moves(previous[..k]);
    ExecConcat(d, start, Moves(previous[..k]));
    assert start[..0] == [];
    AfterMoves(Exec(d, start), previous[..k]);
  }

  /** All old items are aside and nothing is in place. */
  lemma AllMoved(d: Disk)
    requires Ready(d)
    ensures Exec(d, Swap(d)[..1 + |Present(d.data, MANAGED)|]) ==
            Disk(map[], d.staging, Some(d.data), Some(Journal(MovingOld, Present(d.data, MANAGED),
                                                              Present(d.staging, MANAGED))))
  {
    hide Exec;
    var previous := Present(d.data, MANAGED);
    MovingStates(d, |previous|);
    assert previous[..|previous|] == previous;
    PresentIsAll(d.data);
  }

  lemma SwapUpToInstalls(d: Disk, k: nat)
    requires k <= |Present(d.staging, MANAGED)|
    ensures
      var previous, added := Present(d.data, MANAGED), Present(d.staging, MANAGED);
      Swap(d)[..2 + |previous| + k] ==
        Swap(d)[..1 + |previous|] + ([WriteJournal(Journal(Installing, previous, added))] + Installs(added[..k]))
  {
    MovesPrefix(Present(d.staging, MANAGED), k);
  }

  lemma InstallingStates(d: Disk, k: nat)
    requires Ready(d) && k <= |Present(d.staging, MANAGED)|
    ensures Exec(d, Swap(d)[..2 + |Present(d.data, MANAGED)| + k]) ==
            PartlyInstalled(d, Journal(Installing, Present(d.data, MANAGED), Present(d.staging, MANAGED)), k)
  {
    hide Exec, Installs;
    var previous, added := Present(d.data, MANAGED), Present(d.staging, MANAGED);
    var write := WriteJournal(Journal(Installing, previous, added));
    SwapUpToInstalls(d, k);
    ExecConcat(d, Swap(d)[..1 + |previous|], [write] + Installs(added[..k]));
    AllMoved(d);
    var moved := Exec(d, Swap(d)[..1 + |previous|]);
    ExecConcat(moved, [write], Installs(added[..k]));
    ExecThree(moved, write, write, write);
    AfterInstalls(Exec(moved, [write]), added[..k]);
  }

  /** Everything is installed; only the commit is left. */
  lemma AllInstalled(d: Disk)
    requires Ready(d)
    ensures Exec(d, Swap(d)[..CommitPoint(d) - 1]) ==
            Disk(d.staging, map[], Some(d.data), Some(Journal(Installing, Present(d.data, MANAGED),
                                                              Present(d.staging, MANAGED))))
  {
    hide Exec, Only, Without;
    var added := Present(d.staging, MANAGED);
    InstallingStates(d, |added|);
    assert added[..|added|] == added;
    PresentIsAll(d.staging);
  }

  lemma CommittedStates(d: Disk, n: nat)
    requires Ready(d) && CommitPoint(d) <= n <= |Swap(d)|
    ensures
      var j := Journal(Committed, Present(d.data, MANAGED), Present(d.staging, MANAGED));
      Exec(d, Swap(d)[..n]) == Disk(d.staging, map[], Some(d.data), if n == |Swap(d)| then None else Some(j))
  {
    hide Exec;
    var all := CommitPoint(d) - 1;
    var write := WriteJournal(Journal(Committed, Present(d.data, MANAGED), Present(d.staging, MANAGED)));
    var tail := [write, RemoveStaging, RemoveJournal];
    var rest := tail[..n - all];
    assert Swap(d)[..n] == Swap(d)[..all] + rest;
    ExecConcat(d, Swap(d)[..all], rest);
    AllInstalled(d);
    ExecThree(Exec(d, Swap(d)[..all]), write, RemoveStaging, RemoveJournal);
    assert rest == [write] || rest == [write, RemoveStaging] || rest == tail;
  }

  // ---------------------------------------------------------------------------------------------
  // Recovery

  /** What a completed rollback leaves of a disk whose old items are partly aside. */
  function RolledBack(d: Disk, aside: Dir, j: Journal): Disk {
    var cleared := if j.phase == Installing then Cleared(d.data, d.staging, j.added) else d.data;
    var left := LeftAside(cleared, aside, j.previous);
    Disk(Refilled(cleared, aside, j.previous), map[], if left == map[] then None else Some(left), None)
  }

  lemma AfterRollback(d: Disk, aside: Dir, j: Journal)
    requires d.journal == Some(j) && j.phase != Committed && d.aside == Some(aside)
    ensures Recover(d) == RolledBack(d, aside, j)
  {
    hide Exec, Drops, PutBacks, Refilled, LeftAside, Cleared;
    var drops := if j.phase == Installing then Drops(j.added) else [];
    var tail := [RemoveStaging, RemoveAside, RemoveJournal];
    assert RecoveryPlan(j) == (drops + PutBacks(j.previous)) + tail;
    ExecConcat(d, drops + PutBacks(j.previous), tail);
    ExecConcat(d, drops, PutBacks(j.previous));
    if j.phase == Installing {
      AfterDrops(d, j.added);
    } else {
      ExecNothing(d);
    }
    AfterPutBacks(Exec(d, drops), aside, j.previous);
    ExecThree(Exec(d, drops + PutBacks(j.previous)), RemoveStaging, RemoveAside, RemoveJournal);
  }

  lemma ExecNothing(d: Disk)
    ensures Exec(d, []) == d
  {
  }

  /** A crash at any step of a swap, followed by a recovery that completes, leaves exactly the old items or
      exactly the new ones: the old if the commit was not journalled, the new with the old intact aside
      otherwise. Staging and journal are gone either way, and after a rollback so is the aside directory. */
  lemma AllOrNothing(d: Disk, n: nat)
    requires Ready(d) && n <= |Swap(d)|
    ensures
      var after := Recover(Exec(d, Swap(d)[..n]));
      && after.journal.None?
      && (n == 0 ==> after == d)
      && (0 < n < CommitPoint(d) ==> after == Disk(d.data, map[], None, None))
      && (CommitPoint(d) <= n ==> after == Disk(d.staging, map[], Some(d.data), None))
  {
    hide Exec;
    var previous := Present(d.data, MANAGED);
    if n == 0 {
      assert Swap(d)[..0] == [];
      ExecNothing(d);
    } else if n <= 1 + |previous| {
      MovingRollsBack(d, n - 1);
    } else if n < CommitPoint(d) {
      InstallingRollsBack(d, n - 2 - |previous|);
    } else {
      CommittedStates(d, n);
      ExecThree(Exec(d, Swap(d)[..n]), RemoveStaging, RemoveJournal, RemoveJournal);
    }
  }

  lemma MovingRollsBack(d: Disk, k: nat)
    requires Ready(d) && k <= |Present(d.data, MANAGED)|
    ensures Recover(Exec(d, Swap(d)[..1 + k])) == Disk(d.data, map[], None, None)
  {
    hide Exec, Recover, Only, Without, Refilled, LeftAside, Swap;
    var previous, added := Present(d.data, MANAGED), Present(d.staging, MANAGED);
    var j := Journal(MovingOld, previous, added);
    MovingStates(d, k);
    var moved := previous[..k];
    AfterRollback(Moving(d, j, k), Only(d.data, moved), j);
    PresentIsAll(d.data);
    Reassembled(d.data, moved, previous);
  }

  /** What was moved and what was not make up the whole again. */
  lemma Reassembled(dir: Dir, moved: seq<Item>, all: seq<Item>)
    requires Only(dir, all) == dir
    ensures Refilled(Without(dir, moved), Only(dir, moved), all) == dir
    ensures LeftAside(Without(dir, moved), Only(dir, moved), all) == map[]
  {
    assert forall i | i in dir :: i in Only(dir, all);
  }

  lemma InstallingRollsBack(d: Disk, k: nat)
    requires Ready(d) && k <= |Present(d.staging, MANAGED)|
    ensures Recover(Exec(d, Swap(d)[..2 + |Present(d.data, MANAGED)| + k])) == Disk(d.data, map[], None, None)
  {
    hide Exec, Recover;
    var previous, added := Present(d.data, MANAGED), Present(d.staging, MANAGED);
    var j := Journal(Installing, previous, added);
    InstallingStates(d, k);
    var crashed := PartlyInstalled(d, j, k);
    AfterRollback(crashed, d.data, j);
    PresentIsAll(d.data);
    var cleared := Cleared(crashed.data, crashed.staging, j.added);
    assert cleared == map[];
    assert Refilled(cleared, d.data, previous) == d.data;
    assert LeftAside(cleared, d.data, previous) == map[];
  }

  /** A committed restore leaves no side files of the old database next to the new one. */
  lemma NoStaleSideFiles(d: Disk, n: nat)
    requires Ready(d) && CommitPoint(d) <= n <= |Swap(d)|
    requires Wal !in d.staging && Shm !in d.staging
    ensures
      var after := Recover(Exec(d, Swap(d)[..n]));
      Wal !in after.data && Shm !in after.data
  {
    AllOrNothing(d, n);
  }
}
