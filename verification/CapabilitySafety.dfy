/** What holds of the account store's one-time capabilities over every interleaving of transactions. */
module CapabilitySafety {
  import opened Basics
  import opened AccountLinks

  // ---------------------------------------------------------------------------------------------
  // Generations along the log

  /** How often the account's generation was raised. */
  function Raises(log: seq<Event>, account: Id): nat {
    if log == [] then 0
    else
      var last := log[|log| - 1];
      Raises(log[..|log| - 1], account) + (if last.Revoked? && last.account == account then 1 else 0)
  }

  lemma {:induction false} RaisesSplit(log: seq<Event>, account: Id, k: nat)
    requires k <= |log|
    ensures Raises(log[..k], account) <= Raises(log, account)
    ensures (exists i :: k <= i < |log| && log[i].Revoked? && log[i].account == account) ==>
            Raises(log[..k], account) < Raises(log, account)
  {
    if k == |log| {
      assert log[..k] == log;
    } else {
      var front := log[..|log| - 1];
      RaisesSplit(front, account, k);
      assert front[..k] == log[..k];
      if exists i :: k <= i < |log| && log[i].Revoked? && log[i].account == account {
        var i :| k <= i < |log| && log[i].Revoked? && log[i].account == account;
        if i < |front| {
          assert front[i] == log[i];
        }
      }
    }
  }

  lemma RaisesSnoc(log: seq<Event>, e: Event, account: Id)
    ensures Raises(log + [e], account) == Raises(log, account) + (if e.Revoked? && e.account == account then 1 else 0)
  {
    assert (log + [e])[..|log|] == log;
  }

  type Start = map<Id, nat>

  /** The key was drawn once. */
  ghost predicate Once(log: seq<Event>, key: Key) {
    forall i, j | 0 <= i < j < |log| && log[i].Created? && log[j].Created? && log[i].key == key :: log[j].key != key
  }

  lemma OnceBefore(log: seq<Event>, e: Event, key: Key)
    requires Once(log + [e], key)
    ensures Once(log, key)
  {
    assert forall i | 0 <= i < |log| :: (log + [e])[i] == log[i];
  }

  /** The generation the event carries is the account's at that point. An unchecked creation may carry an older one,
      and so may a redemption of a key that was drawn again. */
  ghost predicate Stamped(start: Start, log: seq<Event>, j: nat)
    requires j < |log|
  {
    var e := log[j];
    && e.account in start
    && var now := start[e.account] + Raises(log[..j], e.account);
       match e
       case SessionRead(_, g) => g == now
       case Created(_, _, g, checked) => g <= now && (checked ==> g == now)
       case Redeemed(key, _, g) => g <= now && (Once(log, key) ==> g == now)
       case Revoked(_, g) => g == now + 1
  }

  ghost predicate LogStamped(start: Start, log: seq<Event>) {
    forall j | 0 <= j < |log| :: Stamped(start, log, j)
  }

  ghost predicate Current(start: Start, accounts: Accounts, log: seq<Event>) {
    && accounts.Keys == start.Keys
    && forall a | a in accounts :: accounts[a].generation == start[a] + Raises(log, a)
  }

  lemma StampedSnoc(start: Start, log: seq<Event>, e: Event)
    requires LogStamped(start, log) && Stamped(start, log + [e], |log|)
    ensures LogStamped(start, log + [e])
  {
    hide Raises, Once;
    var all := log + [e];
    forall j | 0 <= j < |log|
      ensures Stamped(start, all, j)
    {
      assert Stamped(start, log, j);
      assert all[..j] == log[..j] && all[j] == log[j];
      if all[j].Redeemed? && Once(all, all[j].key) {
        OnceBefore(log, e, all[j].key);
      }
    }
  }

  // ---------------------------------------------------------------------------------------------
  // Rows and the log

  ghost predicate IsCreation(log: seq<Event>, i: nat, key: Key, account: Id, generation: nat) {
    i < |log| && log[i].Created? && log[i].key == key && log[i].account == account && log[i].generation == generation
  }

  ghost predicate WasCreated(log: seq<Event>, key: Key, account: Id, generation: nat) {
    exists i: nat :: IsCreation(log, i, key, account, generation)
  }

  ghost predicate RowOk(accounts: Accounts, log: seq<Event>, k: Key, r: Row) {
    && r.account in accounts && r.generation <= accounts[r.account].generation
    && WasCreated(log, k, r.account, r.generation)
  }

  ghost predicate RowsOk(accounts: Accounts, rows: Rows, log: seq<Event>) {
    forall k | k in rows :: RowOk(accounts, log, k, rows[k])
  }

  ghost predicate CreatedBetween(log: seq<Event>, key: Key, i: int, j: int) {
    exists m :: i < m < j && 0 <= m < |log| && log[m].Created? && log[m].key == key
  }

  /** Redeeming this key concerns the account it was created for. */
  ghost predicate OwnAccount(log: seq<Event>, key: Key) {
    key.kind == LinkCode || Once(log, key)
  }

  /** Every redemption follows a creation of the key that no earlier redemption used, and the key is spent until it is
      created again. The generation is that of the creation, and so is the account, for a link code or a key drawn
      once. */
  ghost predicate RedemptionOk(rows: Rows, log: seq<Event>, j: nat)
    requires j < |log| && log[j].Redeemed?
  {
    var e := log[j];
    && (exists a :: WasCreated(log[..j], e.key, a, e.generation) && (OwnAccount(log, e.key) ==> a == e.account))
    && (CreatedBetween(log, e.key, j, |log|) || (e.key in rows ==> rows[e.key].status == Used))
    && forall i | 0 <= i < j && log[i].Redeemed? && log[i].key == e.key :: CreatedBetween(log, e.key, i, j)
  }

  ghost predicate RedemptionsOk(rows: Rows, log: seq<Event>) {
    forall j | 0 <= j < |log| && log[j].Redeemed? :: RedemptionOk(rows, log, j)
  }

  lemma WasCreatedStays(log: seq<Event>, e: Event, key: Key, account: Id, generation: nat)
    requires WasCreated(log, key, account, generation)
    ensures WasCreated(log + [e], key, account, generation)
  {
    var i: nat :| IsCreation(log, i, key, account, generation);
    assert IsCreation(log + [e], i, key, account, generation);
  }

  // ---------------------------------------------------------------------------------------------
  // Transactions in flight

  ghost predicate LocksOk(flight: Flight) {
    forall x, y | x in flight && y in flight && x != y && Excludes(flight[x], flight[x].account) ::
      !Holds(flight[y], flight[x].account)
  }

  ghost predicate ClaimsOk(flight: Flight) {
    forall x, y | x in flight && y in flight && x != y && flight[x].Consumed? && flight[y].Consumed? ::
        flight[x].key != flight[y].key
  }

  /** The key was created, and if it was drawn once its row is the account's. */
  ghost predicate OwnedBy(log: seq<Event>, rows: Rows, key: Key, account: Id) {
    && CreatedBetween(log, key, -1, |log|)
    && (Once(log, key) && key in rows ==> rows[key].account == account)
  }

  ghost predicate TxnOk(accounts: Accounts, log: seq<Event>, rows: Rows, t: Txn) {
    && t.account in accounts
    && match t
       case Creating(_, a, g, _, _) => accounts[a].generation == g
       case Inserting(_, a, g, _) => g <= accounts[a].generation
       case Looking(k, a, _) => OwnedBy(log, rows, k, a)
       case Redeeming(k, a, g, _) => OwnedBy(log, rows, k, a) && accounts[a].generation == g
       case Consumed(k, a, g) =>
         && OwnedBy(log, rows, k, a) && accounts[a].generation == g
         && k in rows && rows[k].status == Pending && rows[k].generation == g
       case Confirming(k, a, _) => k.kind == EmailChange && OwnedBy(log, rows, k, a)
       case Revoking(_) => true
  }

  ghost predicate FlightOk(accounts: Accounts, log: seq<Event>, rows: Rows, flight: Flight) {
    LocksOk(flight) && ClaimsOk(flight) && forall x | x in flight :: TxnOk(accounts, log, rows, flight[x])
  }

  ghost predicate HistoryOk(start: Start, accounts: Accounts, rows: Rows, log: seq<Event>) {
    && LogStamped(start, log) && Current(start, accounts, log)
    && RowsOk(accounts, rows, log) && RedemptionsOk(rows, log)
  }

  ghost predicate Inv(start: Start, s: State) {
    && FlightOk(s.db.accounts, s.log, s.db.rows, s.flight)
    && HistoryOk(start, s.db.accounts, s.db.rows, s.log)
  }

  // ---------------------------------------------------------------------------------------------
  // Frames: what the parts need of a change

  /** Rows only disappear or move from pending to another status. */
  ghost predicate Narrows(rows: Rows, next: Rows) {
    forall k | k in next ::
      && k in rows && next[k].account == rows[k].account && next[k].generation == rows[k].generation
      && (next[k].status == rows[k].status || rows[k].status == Pending)
  }

  ghost predicate Untouched(rows: Rows, next: Rows, k: Key) {
    k in rows ==> k in next && next[k] == rows[k]
  }

  /** Narrowing the rows keeps the history. */
  lemma NarrowKeepsHistory(start: Start, accounts: Accounts, rows: Rows, next: Rows, log: seq<Event>)
    requires HistoryOk(start, accounts, rows, log) && Narrows(rows, next)
    ensures HistoryOk(start, accounts, next, log)
  {
    hide LogStamped, Current, WasCreated;
    forall k | k in next
      ensures RowOk(accounts, log, k, next[k])
    {
      assert RowOk(accounts, log, k, rows[k]);
    }
    forall j | 0 <= j < |log| && log[j].Redeemed?
      ensures RedemptionOk(next, log, j)
    {
      assert RedemptionOk(rows, log, j);
    }
  }

  /** Ending a transaction keeps the others, when the rows narrow around the rows they have claimed. */
  lemma NarrowKeepsFlight(accounts: Accounts, log: seq<Event>, rows: Rows, next: Rows, flight: Flight, rest: Flight)
    requires FlightOk(accounts, log, rows, flight) && Narrows(rows, next)
    requires rest.Keys <= flight.Keys && forall x | x in rest :: rest[x] == flight[x]
    requires forall x | x in rest && rest[x].Consumed? :: Untouched(rows, next, rest[x].key)
    ensures FlightOk(accounts, log, next, rest)
  {
    forall x | x in rest
      ensures TxnOk(accounts, log, next, rest[x])
    {
      assert TxnOk(accounts, log, rows, flight[x]);
    }
  }

  // ---------------------------------------------------------------------------------------------
  // Frames: what a further event leaves as it was

  lemma BetweenStays(log: seq<Event>, e: Event, key: Key, i: int, j: int)
    requires CreatedBetween(log, key, i, j)
    ensures CreatedBetween(log + [e], key, i, j)
  {
    var m :| i < m < j && 0 <= m < |log| && log[m].Created? && log[m].key == key;
    assert (log + [e])[m] == log[m];
  }

  /** A creation of a key that was created before is a second draw. */
  lemma DrawnAgain(log: seq<Event>, e: Event)
    requires e.Created? && CreatedBetween(log, e.key, -1, |log|)
    ensures !Once(log + [e], e.key)
  {
    var m :| -1 < m < |log| && log[m].Created? && log[m].key == e.key;
    var all := log + [e];
    assert all[m] == log[m] && all[|log|] == e;
  }

  lemma RowsStay(accounts: Accounts, rows: Rows, log: seq<Event>, e: Event)
    requires RowsOk(accounts, rows, log)
    ensures RowsOk(accounts, rows, log + [e])
  {
    hide WasCreated;
    forall k | k in rows
      ensures RowOk(accounts, log + [e], k, rows[k])
    {
      assert RowOk(accounts, log, k, rows[k]);
      WasCreatedStays(log, e, k, rows[k].account, rows[k].generation);
    }
  }

  lemma RedemptionStays(rows: Rows, log: seq<Event>, e: Event, j: nat)
    requires j < |log| && log[j].Redeemed? && RedemptionOk(rows, log, j)
    ensures (log + [e])[j] == log[j] && RedemptionOk(rows, log + [e], j)
  {
    hide WasCreated, Once, CreatedBetween;
    var all, key := log + [e], log[j].key;
    assert all[..j] == log[..j];
    if Once(all, key) {
      OnceBefore(log, e, key);
    }
    if CreatedBetween(log, key, j, |log|) {
      BetweenStays(log, e, key, j, |log|);
      BetweenWidens(all, key, j, |log|, |all|);
    }
    forall i | 0 <= i < j && all[i].Redeemed? && all[i].key == key
      ensures CreatedBetween(all, key, i, j)
    {
      assert all[i] == log[i];
      BetweenStays(log, e, key, i, j);
    }
  }

  lemma BetweenWidens(log: seq<Event>, key: Key, i: int, j: int, k: int)
    requires CreatedBetween(log, key, i, j) && j <= k
    ensures CreatedBetween(log, key, i, k)
  {
  }

  lemma RedemptionsStay(rows: Rows, log: seq<Event>, e: Event)
    requires RedemptionsOk(rows, log) && !e.Redeemed?
    ensures RedemptionsOk(rows, log + [e])
  {
    hide RedemptionOk;
    var all := log + [e];
    forall j | 0 <= j < |all| && all[j].Redeemed?
      ensures RedemptionOk(rows, all, j)
    {
      assert all[j] == log[j];
      RedemptionStays(rows, log, e, j);
    }
  }

  /** The transactions in flight do not mind what is logged. */
  lemma LogKeepsFlight(accounts: Accounts, log: seq<Event>, e: Event, rows: Rows, flight: Flight)
    requires FlightOk(accounts, log, rows, flight)
    ensures FlightOk(accounts, log + [e], rows, flight)
  {
    hide Once, CreatedBetween;
    forall x | x in flight
      ensures TxnOk(accounts, log + [e], rows, flight[x])
    {
      var t := flight[x];
      assert TxnOk(accounts, log, rows, t);
      if t.Looking? || t.Redeeming? || t.Consumed? || t.Confirming? {
        BetweenStays(log, e, t.key, -1, |log|);
        BetweenWidens(log + [e], t.key, -1, |log|, |log| + 1);
        if Once(log + [e], t.key) {
          OnceBefore(log, e, t.key);
        }
      }
    }
  }

  /** A further event that is neither a raise nor a redemption keeps the history. */
  lemma EventKeepsHistory(start: Start, accounts: Accounts, rows: Rows, log: seq<Event>, e: Event)
    requires HistoryOk(start, accounts, rows, log) && Stamped(start, log + [e], |log|) && !e.Revoked? && !e.Redeemed?
    ensures HistoryOk(start, accounts, rows, log + [e])
  {
    hide LogStamped, Stamped, Raises, RowsOk, RedemptionsOk;
    StampedSnoc(start, log, e);
    forall a | a in accounts {
      RaisesSnoc(log, e, a);
    }
    RowsStay(accounts, rows, log, e);
    RedemptionsStay(rows, log, e);
  }

  /** A creation adds its pending row. */
  lemma RowAdded(start: Start, accounts: Accounts, rows: Rows, log: seq<Event>, key: Key, r: Row, checked: bool)
    requires HistoryOk(start, accounts, rows, log) && key !in rows && r.status == Pending
    requires r.account in accounts && r.generation <= accounts[r.account].generation
    requires checked ==> r.generation == accounts[r.account].generation
    ensures HistoryOk(start, accounts, rows[key := r], log + [Created(key, r.account, r.generation, checked)])
  {
    hide Raises, WasCreated, Once;
    var e := Created(key, r.account, r.generation, checked);
    var all, next := log + [e], rows[key := r];
    assert all[..|log|] == log && all[|log|] == e;
    EventKeepsHistory(start, accounts, rows, log, e);
    CreationIsLast(log, e);
    forall k | k in next
      ensures RowOk(accounts, all, k, next[k])
    {
      assert k != key ==> RowOk(accounts, all, k, rows[k]);
    }
    forall j | 0 <= j < |all| && all[j].Redeemed?
      ensures RedemptionOk(next, all, j)
    {
      assert RedemptionOk(rows, all, j);
      assert all[j].key == key ==> CreatedBetween(all, key, j, |all|);
    }
  }

  lemma CreationIsLast(log: seq<Event>, e: Event)
    requires e.Created?
    ensures WasCreated(log + [e], e.key, e.account, e.generation)
  {
    assert IsCreation(log + [e], |log|, e.key, e.account, e.generation);
  }

  /** A pending row is redeemed: for its own account and the current generation, if its key was drawn once. */
  lemma RowRedeemed(start: Start, accounts: Accounts, rows: Rows, log: seq<Event>, key: Key, account: Id)
    requires HistoryOk(start, accounts, rows, log)
    requires key in rows && rows[key].status == Pending
    requires account in accounts && rows[key].generation <= accounts[account].generation
    requires OwnAccount(log, key) ==> rows[key].account == account
    requires Once(log, key) ==> rows[key].generation == accounts[account].generation
    ensures HistoryOk(start, accounts, rows[key := rows[key].(status := Used)],
                      log + [Redeemed(key, account, rows[key].generation)])
  {
    hide LogStamped, Raises, WasCreated, Once, CreatedBetween;
    var r := rows[key];
    var next, e := rows[key := r.(status := Used)], Redeemed(key, account, r.generation);
    var all := log + [e];
    assert all[..|log|] == log && all[|log|] == e;
    if Once(all, key) {
      OnceBefore(log, e, key);
    }
    NarrowKeepsHistory(start, accounts, rows, next, log);
    StampedSnoc(start, log, e);
    forall a | a in accounts {
      RaisesSnoc(log, e, a);
    }
    RowsStay(accounts, next, log, e);
    RedemptionAdded(accounts, rows, log, key, account);
    forall j | 0 <= j < |all| && all[j].Redeemed?
      ensures RedemptionOk(next, all, j)
    {
      if j < |log| {
        assert all[j] == log[j];
        RedemptionStays(next, log, e, j);
      }
    }
  }

  lemma RedemptionAdded(accounts: Accounts, rows: Rows, log: seq<Event>, key: Key, account: Id)
    requires RowsOk(accounts, rows, log) && RedemptionsOk(rows, log)
    requires key in rows && rows[key].status == Pending && (OwnAccount(log, key) ==> rows[key].account == account)
    ensures RedemptionOk(rows[key := rows[key].(status := Used)],
                         log + [Redeemed(key, account, rows[key].generation)], |log|)
  {
    hide WasCreated, Once, CreatedBetween;
    var e := Redeemed(key, account, rows[key].generation);
    var all := log + [e];
    assert all[..|log|] == log;
    assert RowOk(accounts, log, key, rows[key]);
    if Once(all, key) {
      OnceBefore(log, e, key);
    }
    forall i | 0 <= i < |log| && all[i].Redeemed? && all[i].key == key
      ensures CreatedBetween(all, key, i, |log|)
    {
      assert all[i] == log[i] && RedemptionOk(rows, log, i);
      BetweenStays(log, e, key, i, |log|);
    }
  }

  /** The account's generation rises. */
  lemma GenerationRaised(start: Start, accounts: Accounts, rows: Rows, log: seq<Event>, account: Id, next: Account)
    requires HistoryOk(start, accounts, rows, log) && account in accounts
    requires next.generation == accounts[account].generation + 1
    ensures HistoryOk(start, accounts[account := next], rows, log + [Revoked(account, next.generation)])
  {
    hide LogStamped, Raises, WasCreated, RedemptionsOk;
    var e := Revoked(account, next.generation);
    var all, raised := log + [e], accounts[account := next];
    assert all[..|log|] == log && all[|log|] == e;
    StampedSnoc(start, log, e);
    forall a | a in accounts
      ensures raised[a].generation == start[a] + Raises(all, a)
    {
      RaisesSnoc(log, e, a);
    }
    assert raised.Keys == start.Keys;
    RowsStay(accounts, rows, log, e);
    forall k | k in rows
      ensures RowOk(raised, all, k, rows[k])
    {
      assert RowOk(accounts, all, k, rows[k]);
    }
    RedemptionsStay(rows, log, e);
  }

  /** Once no other transaction holds the account, its generation can rise under the others. */
  lemma RaiseKeepsFlight(accounts: Accounts, log: seq<Event>, rows: Rows, flight: Flight, account: Id, next: Account)
    requires FlightOk(accounts, log, rows, flight) && account in accounts
    requires next.generation == accounts[account].generation + 1
    requires forall x | x in flight :: !Holds(flight[x], account)
    ensures FlightOk(accounts[account := next], log, rows, flight)
  {
    forall x | x in flight
      ensures TxnOk(accounts[account := next], log, rows, flight[x])
    {
      assert TxnOk(accounts, log, rows, flight[x]);
    }
  }

  /** A new row disturbs no transaction in flight: one that knows its key saw an earlier draw. */
  lemma AddKeepsFlight(accounts: Accounts, log: seq<Event>, rows: Rows, flight: Flight, e: Event, r: Row)
    requires FlightOk(accounts, log, rows, flight) && e.Created? && e.key !in rows
    ensures FlightOk(accounts, log + [e], rows[e.key := r], flight)
  {
    hide Once, CreatedBetween;
    LogKeepsFlight(accounts, log, e, rows, flight);
    forall x | x in flight
      ensures TxnOk(accounts, log + [e], rows[e.key := r], flight[x])
    {
      var t := flight[x];
      assert TxnOk(accounts, log, rows, t) && TxnOk(accounts, log + [e], rows, t);
      if (t.Looking? || t.Redeeming? || t.Consumed? || t.Confirming?) && t.key == e.key {
        DrawnAgain(log, e);
      }
    }
  }

  /** A transaction joins, or moves on, with locks that are compatible with the others. */
  lemma JoinKeepsFlight(accounts: Accounts, log: seq<Event>, rows: Rows, flight: Flight, tx: nat, t: Txn)
    requires FlightOk(accounts, log, rows, flight) && TxnOk(accounts, log, rows, t)
    requires Excludes(t, t.account) ==> forall x | x in flight && x != tx :: !Holds(flight[x], t.account)
    requires Holds(t, t.account) ==> forall x | x in flight && x != tx :: !Excludes(flight[x], t.account)
    requires t.Consumed? ==> forall x | x in flight && x != tx && flight[x].Consumed? :: flight[x].key != t.key
    ensures FlightOk(accounts, log, rows, flight[tx := t])
  {
    hide TxnOk;
  }

  lemma NotBlocked(s: State, rows: Rows)
    requires !Blocked(s, rows)
    ensures forall x | x in s.flight && s.flight[x].Consumed? :: Untouched(s.db.rows, rows, s.flight[x].key)
  {
    forall x | x in s.flight && s.flight[x].Consumed?
      ensures Untouched(s.db.rows, rows, s.flight[x].key)
    {
      assert Claimed(s.flight, s.flight[x].key);
    }
  }

  lemma LeaveKeeps(start: Start, s: State, tx: nat)
    requires Inv(start, s)
    ensures Inv(start, Leave(s, tx))
  {
    hide TxnOk, HistoryOk;
  }

  // ---------------------------------------------------------------------------------------------
  // Each step

  lemma UpdatesNarrow(rows: Rows, account: Id, now: Time)
    ensures Narrows(rows, CancelOpen(rows, account, now)) && Narrows(rows, DropOpen(rows, account))
    ensures Narrows(rows, Settle(rows, account)) && Narrows(rows, Purge(rows, now))
  {
  }

  lemma RowsAreCreated(start: Start, accounts: Accounts, rows: Rows, log: seq<Event>)
    requires HistoryOk(start, accounts, rows, log)
    ensures forall k | k in rows :: CreatedBetween(log, k, -1, |log|) && rows[k].account in accounts
  {
    hide LogStamped, Current, RedemptionsOk;
    forall k | k in rows
      ensures CreatedBetween(log, k, -1, |log|) && rows[k].account in accounts
    {
      assert RowOk(accounts, log, k, rows[k]);
    }
  }

  lemma FinishCreatingKeeps(start: Start, s: State, tx: nat, now: Time)
    requires Inv(start, s) && tx in s.flight && s.flight[tx].Creating?
    ensures Inv(start, FinishCreating(s, tx, s.flight[tx], now))
  {
    hide FlightOk, HistoryOk, CancelOpen, DropOpen, Narrows, Untouched, Blocked;
    LeaveKeeps(start, s, tx);
    var t, rows := s.flight[tx], s.db.rows;
    var kept := if t.key.kind == LinkCode then CancelOpen(rows, t.account, now) else DropOpen(rows, t.account);
    if !Blocked(s, kept) && t.key !in kept {
      UpdatesNarrow(rows, t.account, now);
      NotBlocked(s, kept);
      NarrowKeepsFlight(s.db.accounts, s.log, rows, kept, s.flight, s.flight - {tx});
      NarrowKeepsHistory(start, s.db.accounts, rows, kept, s.log);
      TxnFacts(s.db.accounts, s.log, rows, s.flight, tx);
      var r := Row(t.account, t.generation, t.payload, now, t.expiresAt, Pending);
      AddKeepsFlight(s.db.accounts, s.log, kept, s.flight - {tx}, Created(t.key, t.account, t.generation, true), r);
      RowAdded(start, s.db.accounts, kept, s.log, t.key, r, true);
    }
  }

  lemma TxnFacts(accounts: Accounts, log: seq<Event>, rows: Rows, flight: Flight, tx: nat)
    requires FlightOk(accounts, log, rows, flight) && tx in flight
    ensures flight[tx].account in accounts
    ensures flight[tx].Creating? ==> flight[tx].generation == accounts[flight[tx].account].generation
    ensures flight[tx].Inserting? ==> flight[tx].generation <= accounts[flight[tx].account].generation
    ensures flight[tx].Consumed? ==>
              && flight[tx].key in rows && rows[flight[tx].key].status == Pending
              && rows[flight[tx].key].generation == flight[tx].generation == accounts[flight[tx].account].generation
    ensures flight[tx].Confirming? || flight[tx].Redeeming? || flight[tx].Looking? || flight[tx].Consumed? ==>
            OwnedBy(log, rows, flight[tx].key, flight[tx].account)
    ensures flight[tx].Confirming? ==> flight[tx].key.kind == EmailChange
    ensures flight[tx].Redeeming? ==> flight[tx].generation == accounts[flight[tx].account].generation
  {
    assert TxnOk(accounts, log, rows, flight[tx]);
  }

  lemma FinishInsertingKeeps(start: Start, s: State, tx: nat, now: Time)
    requires Inv(start, s) && tx in s.flight && s.flight[tx].Inserting?
    ensures Inv(start, FinishInserting(s, tx, s.flight[tx], now))
  {
    hide FlightOk, HistoryOk;
    LeaveKeeps(start, s, tx);
    var t := s.flight[tx];
    if t.key !in s.db.rows {
      TxnFacts(s.db.accounts, s.log, s.db.rows, s.flight, tx);
      var r := Row(t.account, t.generation, [], now, t.expiresAt, Pending);
      assert FlightOk(s.db.accounts, s.log, s.db.rows, s.flight - {tx}) by {
        assert Inv(start, Leave(s, tx));
      }
      AddKeepsFlight(s.db.accounts, s.log, s.db.rows, s.flight - {tx},
                     Created(t.key, t.account, t.generation, false), r);
      RowAdded(start, s.db.accounts, s.db.rows, s.log, t.key, r, false);
    }
  }

  lemma FinishRedeemingKeeps(start: Start, s: State, tx: nat, token: Text)
    requires Inv(start, s) && tx in s.flight && s.flight[tx].Consumed?
    ensures Inv(start, FinishRedeeming(s, tx, s.flight[tx], token))
  {
    hide TxnOk, HistoryOk;
    LeaveKeeps(start, s, tx);
    var t, rows := s.flight[tx], s.db.rows;
    TxnFacts(s.db.accounts, s.log, rows, s.flight, tx);
    var used := rows[t.key := rows[t.key].(status := Used)];
    assert forall x | x in s.flight - {tx} && s.flight[x].Consumed? :: s.flight[x].key != t.key;
    NarrowKeepsFlight(s.db.accounts, s.log, rows, used, s.flight, s.flight - {tx});
    LogKeepsFlight(s.db.accounts, s.log, Redeemed(t.key, rows[t.key].account, t.generation), used, s.flight - {tx});
    RowFacts(start, s.db.accounts, rows, s.log, t.key);
    RowRedeemed(start, s.db.accounts, rows, s.log, t.key, rows[t.key].account);
  }

  lemma RowFacts(start: Start, accounts: Accounts, rows: Rows, log: seq<Event>, key: Key)
    requires HistoryOk(start, accounts, rows, log) && key in rows
    ensures rows[key].account in accounts && rows[key].generation <= accounts[rows[key].account].generation
  {
    hide LogStamped, Current, RedemptionsOk, WasCreated;
    assert RowOk(accounts, log, key, rows[key]);
  }

  /** Raising the generation settles the account's rows and ends the transaction that held the account. */
  lemma RaiseKeeps(start: Start, s: State, tx: nat, rows: Rows, log: seq<Event>, next: Account)
    requires FlightOk(s.db.accounts, log, s.db.rows, s.flight)
    requires tx in s.flight && Excludes(s.flight[tx], s.flight[tx].account)
    requires Narrows(s.db.rows, rows) && !Blocked(s, Settle(rows, s.flight[tx].account))
    requires HistoryOk(start, s.db.accounts, rows, log)
    requires s.flight[tx].account in s.db.accounts
    requires next.generation == s.db.accounts[s.flight[tx].account].generation + 1
    ensures var account := s.flight[tx].account;
            var all := log + [Revoked(account, next.generation)];
            && FlightOk(s.db.accounts[account := next], all, Settle(rows, account), s.flight - {tx})
            && HistoryOk(start, s.db.accounts[account := next], Settle(rows, account), all)
  {
    hide FlightOk, HistoryOk, Settle, Narrows, Untouched, Blocked;
    var account, e := s.flight[tx].account, Revoked(s.flight[tx].account, next.generation);
    var settled := Settle(rows, account);
    UpdatesNarrow(rows, account, 0);
    NarrowTwice(s.db.rows, rows, settled);
    NotBlocked(s, settled);
    NarrowKeepsFlight(s.db.accounts, log, s.db.rows, settled, s.flight, s.flight - {tx});
    HeldAlone(s.db.accounts, log, s.db.rows, s.flight, tx);
    RaiseKeepsFlight(s.db.accounts, log, settled, s.flight - {tx}, account, next);
    LogKeepsFlight(s.db.accounts[account := next], log, e, settled, s.flight - {tx});
    NarrowKeepsHistory(start, s.db.accounts, rows, settled, log);
    GenerationRaised(start, s.db.accounts, settled, log, account, next);
  }

  lemma NarrowTwice(a: Rows, b: Rows, c: Rows)
    requires Narrows(a, b) && Narrows(b, c)
    ensures Narrows(a, c)
  {
  }

  lemma HeldAlone(accounts: Accounts, log: seq<Event>, rows: Rows, flight: Flight, tx: nat)
    requires FlightOk(accounts, log, rows, flight) && tx in flight && Excludes(flight[tx], flight[tx].account)
    ensures forall x | x in flight - {tx} :: !Holds(flight[x], flight[tx].account)
  {
    hide TxnOk;
  }

  lemma FinishRevokingKeeps(start: Start, s: State, tx: nat, after: Aftermath)
    requires Inv(start, s) && tx in s.flight && s.flight[tx].Revoking?
    ensures Inv(start, FinishRevoking(s, tx, s.flight[tx], after))
  {
    hide FlightOk, HistoryOk, Settle, SessionsWithout, ConnectionsWithout, Blocked;
    LeaveKeeps(start, s, tx);
    var t := s.flight[tx];
    TxnFacts(s.db.accounts, s.log, s.db.rows, s.flight, tx);
    var account := s.db.accounts[t.account];
    if !Blocked(s, Settle(s.db.rows, t.account)) {
      RaiseKeeps(start, s, tx, s.db.rows, s.log, account.(generation := account.generation + 1));
    }
  }

  lemma FinishConfirmingKeeps(start: Start, s: State, tx: nat, token: Text, expiresAt: Time)
    requires Inv(start, s) && tx in s.flight && s.flight[tx].Confirming?
    ensures Inv(start, FinishConfirming(s, tx, s.flight[tx], token, expiresAt))
  {
    hide FlightOk, HistoryOk, Settle, SessionsWithout, EmailTaken, Blocked, Once, CreatedBetween;
    LeaveKeeps(start, s, tx);
    var t, rows := s.flight[tx], s.db.rows;
    if Confirmable(s.db, t) && token !in SessionsWithout(s.db.sessions, t.account) {
      TxnFacts(s.db.accounts, s.log, rows, s.flight, tx);
      var account, used := s.db.accounts[t.account], rows[t.key := rows[t.key].(status := Used)];
      var e := Redeemed(t.key, t.account, account.generation);
      if !Blocked(s, Settle(used, t.account)) {
        RowRedeemed(start, s.db.accounts, rows, s.log, t.key, t.account);
        LogKeepsFlight(s.db.accounts, s.log, e, rows, s.flight);
        RaiseKeeps(start, s, tx, used, s.log + [e], Account(account.generation + 1, rows[t.key].payload, true));
      }
    }
  }

  lemma RewriteKeeps(start: Start, s: State, rows: Rows)
    requires Inv(start, s) && Narrows(s.db.rows, rows)
    ensures Inv(start, Rewrite(s, rows))
  {
    hide TxnOk, HistoryOk, Blocked, Untouched, Narrows;
    if !Blocked(s, rows) {
      NotBlocked(s, rows);
      NarrowKeepsFlight(s.db.accounts, s.log, s.db.rows, rows, s.flight, s.flight);
      NarrowKeepsHistory(start, s.db.accounts, s.db.rows, rows, s.log);
    }
  }

  lemma PurgeKeeps(start: Start, s: State, now: Time)
    requires Inv(start, s) && Narrows(s.db.rows, Purge(s.db.rows, now))
    ensures Inv(start, Apply(s, PurgeExpired(now)))
  {
    hide FlightOk, HistoryOk, Blocked, Purge, LiveSessions;
    RewriteKeeps(start, s, Purge(s.db.rows, now));
  }

  /** Joining, locking and claiming. */
  lemma ClaimKeeps(start: Start, s: State, tx: nat)
    requires Inv(start, s) && tx in s.flight && s.flight[tx].Redeeming?
    ensures Inv(start, ClaimRow(s, tx, s.flight[tx]))
  {
    hide HistoryOk, TxnOk;
    LeaveKeeps(start, s, tx);
    var t := s.flight[tx];
    if !Claimed(s.flight, t.key) && Redeemable(s.db.rows, t.key, t.generation, t.now) {
      TxnFacts(s.db.accounts, s.log, s.db.rows, s.flight, tx);
      var next := Consumed(t.key, t.account, t.generation);
      assert TxnOk(s.db.accounts, s.log, s.db.rows, next) by {
        ConsumedOk(s.db.accounts, s.log, s.db.rows, next);
      }
      assert Holds(t, t.account);
      JoinKeepsFlight(s.db.accounts, s.log, s.db.rows, s.flight, tx, next);
    }
  }

  lemma ConsumedOk(accounts: Accounts, log: seq<Event>, rows: Rows, t: Txn)
    requires t.Consumed? && t.account in accounts && t.key in rows && rows[t.key].status == Pending
    requires OwnedBy(log, rows, t.key, t.account)
    requires rows[t.key].generation == t.generation == accounts[t.account].generation
    ensures TxnOk(accounts, log, rows, t)
  {
  }

  lemma LockKeeps(start: Start, s: State, tx: nat)
    requires Inv(start, s) && tx in s.flight && s.flight[tx].Looking?
    ensures Inv(start, ShareLock(s, tx, s.flight[tx]))
    ensures s.flight[tx].key.kind == EmailChange ==> Inv(start, ExclusiveLock(s, tx, s.flight[tx]))
  {
    hide HistoryOk, FlightOk;
    LeaveKeeps(start, s, tx);
    var t := s.flight[tx];
    TxnFacts(s.db.accounts, s.log, s.db.rows, s.flight, tx);
    if CanShare(s.flight, t.account) {
      JoinKeepsFlight(s.db.accounts, s.log, s.db.rows, s.flight, tx,
                      Redeeming(t.key, t.account, s.db.accounts[t.account].generation, t.now));
    }
    if t.key.kind == EmailChange && CanExclude(s.flight, t.account) {
      JoinKeepsFlight(s.db.accounts, s.log, s.db.rows, s.flight, tx, Confirming(t.key, t.account, t.now));
    }
  }

  lemma BeginKeeps(start: Start, s: State, tx: nat, key: Key, account: Id, expected: nat, payload: Text,
                   expiresAt: Time, now: Time)
    requires Inv(start, s)
    ensures Inv(start, BeginCreating(s, tx, key, account, expected, payload, expiresAt))
    ensures Inv(start, BeginRevoking(s, tx, account)) && Inv(start, LookUp(s, tx, key, now))
    ensures account in s.db.accounts ==>
              Inv(start, s.(flight := s.flight[tx := Inserting(key, account, s.db.accounts[account].generation,
                                                               expiresAt)]))
  {
    hide HistoryOk, FlightOk, EmailTaken;
    RowsAreCreated(start, s.db.accounts, s.db.rows, s.log);
    if account in s.db.accounts {
      var g := s.db.accounts[account].generation;
      JoinKeepsFlight(s.db.accounts, s.log, s.db.rows, s.flight, tx, Inserting(key, account, g, expiresAt));
      if CanExclude(s.flight, account) {
        JoinKeepsFlight(s.db.accounts, s.log, s.db.rows, s.flight, tx,
                        Creating(key, account, g, payload, expiresAt));
        JoinKeepsFlight(s.db.accounts, s.log, s.db.rows, s.flight, tx, Revoking(account));
      }
    }
    if key in s.db.rows {
      JoinKeepsFlight(s.db.accounts, s.log, s.db.rows, s.flight, tx, Looking(key, s.db.rows[key].account, now));
    }
  }

  lemma ReadKeeps(start: Start, s: State, account: Id)
    requires Inv(start, s) && account in s.db.accounts
    ensures Inv(start, s.(log := s.log + [SessionRead(account, s.db.accounts[account].generation)]))
  {
    hide FlightOk, Raises;
    var e := SessionRead(account, s.db.accounts[account].generation);
    assert (s.log + [e])[..|s.log|] == s.log;
    LogKeepsFlight(s.db.accounts, s.log, e, s.db.rows, s.flight);
    EventKeepsHistory(start, s.db.accounts, s.db.rows, s.log, e);
  }

  /** Every step keeps the invariant. */
  lemma StepKeeps(start: Start, s: State, step: Step)
    requires Inv(start, s)
    ensures Inv(start, Apply(s, step))
  {
    hide Inv, BeginCreating, FinishCreating, FinishInserting, LookUp, ShareLock, ClaimRow, FinishRedeeming,
         ExclusiveLock,
         FinishConfirming, BeginRevoking, FinishRevoking, Rewrite, CancelOpen, Purge, Narrows, LiveSessions, Blocked;
    match step
    case ReadSession(token, now) =>
      if token in s.db.sessions && s.db.sessions[token].account in s.db.accounts {
        ReadKeeps(start, s, s.db.sessions[token].account);
      }
    case BeginCreate(tx, key, account, expected, payload, expiresAt) =>
      BeginKeeps(start, s, tx, key, account, expected, payload, expiresAt, 0);
    case FinishCreate(tx, now) =>
      if tx in s.flight && s.flight[tx].Creating? {
        FinishCreatingKeeps(start, s, tx, now);
      }
    case BeginInsert(tx, hash, account, expiresAt) =>
      BeginKeeps(start, s, tx, Key(LinkCode, hash), account, 0, [], expiresAt, 0);
    case FinishInsert(tx, now) =>
      if tx in s.flight && s.flight[tx].Inserting? {
        FinishInsertingKeeps(start, s, tx, now);
      }
    case Look(tx, key, now) => BeginKeeps(start, s, tx, key, [], 0, [], 0, now);
    case LockShared(tx) =>
      if tx in s.flight && s.flight[tx].Looking? {
        LockKeeps(start, s, tx);
      }
    case Claim(tx) =>
      if tx in s.flight && s.flight[tx].Redeeming? {
        ClaimKeeps(start, s, tx);
      }
    case FinishRedeem(tx, token) =>
      if tx in s.flight && s.flight[tx].Consumed? {
        FinishRedeemingKeeps(start, s, tx, token);
      }
    case LockExclusive(tx) =>
      if tx in s.flight && s.flight[tx].Looking? {
        LockKeeps(start, s, tx);
      }
    case FinishConfirm(tx, token, expiresAt) =>
      if tx in s.flight && s.flight[tx].Confirming? {
        FinishConfirmingKeeps(start, s, tx, token, expiresAt);
      }
    case BeginRevoke(tx, account) => BeginKeeps(start, s, tx, Key(LinkCode, []), account, 0, [], 0, 0);
    case FinishRevoke(tx, after) =>
      if tx in s.flight && s.flight[tx].Revoking? {
        FinishRevokingKeeps(start, s, tx, after);
      }
    case Abort(tx) => LeaveKeeps(start, s, tx);
    case CancelLinks(account, now) =>
      UpdatesNarrow(s.db.rows, account, now);
      RewriteKeeps(start, s, CancelOpen(s.db.rows, account, now));
    case PurgeExpired(now) =>
      UpdatesNarrow(s.db.rows, [], now);
      PurgeKeeps(start, s, now);
  }

  // ---------------------------------------------------------------------------------------------
  // Over every interleaving

  /** Any accounts, sessions and connections, and no capabilities yet. */
  function Initial(accounts: Accounts, sessions: map<Text, Session>, connections: map<Text, Id>): State {
    State(Database(accounts, map[], sessions, connections), map[], [])
  }

  function Generations(accounts: Accounts): Start {
    map a | a in accounts :: accounts[a].generation
  }

  lemma {:induction false} EveryReachableStateHolds(accounts: Accounts, sessions: map<Text, Session>,
                                                    connections: map<Text, Id>, steps: seq<Step>)
    ensures Inv(Generations(accounts), Run(Initial(accounts, sessions, connections), steps))
  {
    if steps != [] {
      hide Inv, Apply;
      EveryReachableStateHolds(accounts, sessions, connections, steps[..|steps| - 1]);
      StepKeeps(Generations(accounts), Run(Initial(accounts, sessions, connections), steps[..|steps| - 1]),
                steps[|steps| - 1]);
    }
  }

  ghost predicate Reachable(s: State, start: Start) {
    exists accounts, sessions, connections, steps ::
      s == Run(Initial(accounts, sessions, connections), steps) && start == Generations(accounts)
  }

  ghost predicate RaisedBetween(log: seq<Event>, account: Id, i: nat, j: nat) {
    exists k :: i <= k < j && k < |log| && log[k].Revoked? && log[k].account == account
  }

  /** Two moments with the same generation have no raise between them. */
  lemma SameGenerationSameEra(log: seq<Event>, account: Id, i: nat, j: nat)
    requires i <= j <= |log| && Raises(log[..i], account) >= Raises(log[..j], account)
    ensures !RaisedBetween(log, account, i, j)
  {
    RaisesSplit(log[..j], account, i);
    assert log[..j][..i] == log[..i];
    assert forall k | 0 <= k < j :: log[..j][k] == log[k];
  }

  lemma ReachableHolds(s: State, start: Start)
    requires Reachable(s, start)
    ensures Inv(start, s)
  {
    var accounts, sessions, connections, steps :|
      s == Run(Initial(accounts, sessions, connections), steps) && start == Generations(accounts);
    EveryReachableStateHolds(accounts, sessions, connections, steps);
  }

  /** Between two redemptions of one code or token lies a creation of it: each is redeemed at most once, and a random
      one that is drawn again after its row was purged counts as another. */
  lemma RedeemedOnce(s: State, start: Start, i: nat, j: nat)
    requires Reachable(s, start) && i < j < |s.log| && s.log[i].Redeemed? && s.log[j].Redeemed?
    requires s.log[i].key == s.log[j].key
    ensures CreatedBetween(s.log, s.log[j].key, i, j)
  {
    hide WasCreated, Stamped, Apply, Once;
    ReachableHolds(s, start);
    assert RedemptionOk(s.db.rows, s.log, j);
  }

  /** It is redeemed with the generation it was created with; a link code, and anything drawn once, for the account it
      was created for; and anything drawn once while that is the account's generation, with no raise in between. */
  lemma RedeemedInItsGeneration(s: State, start: Start, j: nat) returns (i: nat, account: Id)
    requires Reachable(s, start) && j < |s.log| && s.log[j].Redeemed?
    ensures i < j && IsCreation(s.log, i, s.log[j].key, account, s.log[j].generation)
    ensures OwnAccount(s.log, s.log[j].key) ==> account == s.log[j].account
    ensures s.log[j].account in start
    ensures Once(s.log, s.log[j].key) ==>
              && s.log[j].generation == start[s.log[j].account] + Raises(s.log[..j], s.log[j].account)
              && !RaisedBetween(s.log, s.log[j].account, i, j)
  {
    hide Apply, Raises, Once, CreatedBetween, RaisedBetween;
    ReachableHolds(s, start);
    var e := s.log[j];
    assert RedemptionOk(s.db.rows, s.log, j);
    account :| WasCreated(s.log[..j], e.key, account, e.generation)
               && (OwnAccount(s.log, e.key) ==> account == e.account);
    i :| IsCreation(s.log[..j], i, e.key, account, e.generation);
    assert s.log[..j][i] == s.log[i];
    assert Stamped(start, s.log, i) && Stamped(start, s.log, j);
    if Once(s.log, e.key) {
      SameGenerationSameEra(s.log, e.account, i, j);
    }
  }

  /** A creation checked against the generation of a session read has no raise between the read and the creation. */
  lemma StaleAuthorityFails(s: State, start: Start, i: nat, j: nat)
    requires Reachable(s, start) && i < j < |s.log|
    requires s.log[i].SessionRead? && s.log[j].Created? && s.log[j].checked
    requires s.log[i].account == s.log[j].account && s.log[i].generation == s.log[j].generation
    ensures !RaisedBetween(s.log, s.log[i].account, i, j)
  {
    hide Apply, Raises;
    ReachableHolds(s, start);
    assert Stamped(start, s.log, i) && Stamped(start, s.log, j);
    SameGenerationSameEra(s.log, s.log[i].account, i, j);
  }

  /** Generations only rise: a raise carries a generation above that of every earlier event of the account. */
  lemma GenerationsRise(s: State, start: Start, i: nat, j: nat)
    requires Reachable(s, start) && i < j < |s.log| && s.log[j].Revoked? && s.log[i].account == s.log[j].account
    ensures s.log[i].generation < s.log[j].generation
  {
    hide Apply, Raises;
    ReachableHolds(s, start);
    assert Stamped(start, s.log, i) && Stamped(start, s.log, j);
    var account := s.log[j].account;
    RaisesSplit(s.log[..j], account, i);
    assert s.log[..j][..i] == s.log[..i];
    assert s.log[..j][i] == s.log[i];
  }
}
