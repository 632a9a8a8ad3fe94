/** What the transactions of one account leave of the others, over every interleaving. */
module CapabilityIsolation {
  import opened Basics
  import opened AccountLinks

  /** The accounts a step may change anything of. */
  function Touched(s: State, step: Step): set<Id> {
    match step
    case FinishCreate(tx, _) => if tx in s.flight then {s.flight[tx].account} else {}
    case FinishInsert(tx, _) => if tx in s.flight then {s.flight[tx].account} else {}
    case FinishRedeem(tx, _) => RowAccount(s, tx)
    case FinishConfirm(tx, _, _) => if tx in s.flight then {s.flight[tx].account} + RowAccount(s, tx) else {}
    case FinishRevoke(tx, _) => if tx in s.flight then {s.flight[tx].account} else {}
    case CancelLinks(account, _) => {account}
    case _ => {}
  }

  /** The account of the row a transaction is about to use up. */
  function RowAccount(s: State, tx: nat): set<Id> {
    if tx in s.flight && (s.flight[tx].Consumed? || s.flight[tx].Confirming?) && s.flight[tx].key in s.db.rows then
      {s.db.rows[s.flight[tx].key].account}
    else {}
  }

  // ---------------------------------------------------------------------------------------------
  // What is stored for an account

  ghost predicate SameAccount(a: Accounts, b: Accounts, x: Id) {
    (x in a <==> x in b) && (x in a ==> a[x] == b[x])
  }

  ghost predicate SameRows(a: Rows, b: Rows, x: Id) {
    forall k :: (k in a && a[k].account == x) || (k in b && b[k].account == x) ==> k in a && k in b && a[k] == b[k]
  }

  ghost predicate SameSessions(a: map<Text, Session>, b: map<Text, Session>, x: Id) {
    forall k :: (k in a && a[k].account == x) || (k in b && b[k].account == x) ==> k in a && k in b && a[k] == b[k]
  }

  ghost predicate SameConnections(a: map<Text, Id>, b: map<Text, Id>, x: Id) {
    forall k :: (k in a && a[k] == x) || (k in b && b[k] == x) ==> k in a && k in b && a[k] == b[k]
  }

  ghost predicate SameFor(a: Database, b: Database, x: Id) {
    && SameAccount(a.accounts, b.accounts, x) && SameRows(a.rows, b.rows, x)
    && SameSessions(a.sessions, b.sessions, x) && SameConnections(a.connections, b.connections, x)
  }

  lemma SameTrans(a: Database, b: Database, c: Database, x: Id)
    requires SameFor(a, b, x) && SameFor(b, c, x)
    ensures SameFor(a, c, x)
  {
  }

  lemma Unchanged(a: Database, x: Id)
    ensures SameFor(a, a, x)
  {
  }

  // ---------------------------------------------------------------------------------------------
  // The updates

  lemma UpdatesAreLocal(rows: Rows, account: Id, now: Time, x: Id)
    requires x != account
    ensures SameRows(rows, CancelOpen(rows, account, now), x) && SameRows(rows, DropOpen(rows, account), x)
    ensures SameRows(rows, Settle(rows, account), x)
    ensures forall k | k in DropOpen(rows, account) || k in CancelOpen(rows, account, now) :: k in rows
  {
  }

  lemma InsertIsLocal(rows: Rows, kept: Rows, key: Key, r: Row, x: Id)
    requires SameRows(rows, kept, x) && key !in kept && r.account != x
    ensures SameRows(rows, kept[key := r], x)
  {
    assert key in rows ==> rows[key].account != x;
  }

  lemma SettleIsLocal(rows: Rows, key: Key, account: Id, x: Id)
    requires x != account && key in rows && rows[key].account != x
    ensures SameRows(rows, Settle(rows[key := rows[key].(status := Used)], account), x)
  {
  }

  lemma SessionsAreLocal(sessions: map<Text, Session>, account: Id, x: Id)
    requires x != account
    ensures SameSessions(sessions, SessionsWithout(sessions, account), x)
  {
  }

  lemma SessionIsLocal(before: map<Text, Session>, sessions: map<Text, Session>, token: Text, e: Session, x: Id)
    requires SameSessions(before, sessions, x) && token !in sessions && e.account != x
    ensures SameSessions(before, sessions[token := e], x)
  {
    assert token in before ==> before[token].account != x;
  }

  lemma ConnectionsAreLocal(connections: map<Text, Id>, account: Id, x: Id)
    requires x != account
    ensures SameConnections(connections, ConnectionsWithout(connections, account), x)
  {
  }

  // ---------------------------------------------------------------------------------------------
  // The steps

  lemma CreateIsLocal(s: State, tx: nat, now: Time, x: Id)
    requires tx in s.flight && s.flight[tx].Creating? && x != s.flight[tx].account
    ensures SameFor(s.db, FinishCreating(s, tx, s.flight[tx], now).db, x)
  {
    hide CancelOpen, DropOpen, Blocked, SameRows;
    Unchanged(s.db, x);
    var t := s.flight[tx];
    UpdatesAreLocal(s.db.rows, t.account, now, x);
    var kept := if t.key.kind == LinkCode then CancelOpen(s.db.rows, t.account, now)
        else DropOpen(s.db.rows, t.account);
    if t.key !in kept {
      InsertIsLocal(s.db.rows, kept, t.key, Row(t.account, t.generation, t.payload, now, t.expiresAt, Pending), x);
    }
  }

  lemma ConfirmIsLocal(s: State, tx: nat, token: Text, expiresAt: Time, x: Id)
    requires tx in s.flight && s.flight[tx].Confirming?
    requires x != s.flight[tx].account && x !in RowAccount(s, tx)
    ensures SameFor(s.db, FinishConfirming(s, tx, s.flight[tx], token, expiresAt).db, x)
  {
    hide Settle, Blocked, EmailTaken, SessionsWithout, SameRows, SameSessions, SameConnections;
    Unchanged(s.db, x);
    var t := s.flight[tx];
    var others := SessionsWithout(s.db.sessions, t.account);
    SessionsAreLocal(s.db.sessions, t.account, x);
    if token !in others {
      SessionIsLocal(s.db.sessions, others, token, Session(t.account, expiresAt), x);
    }
    if t.key in s.db.rows {
      SettleIsLocal(s.db.rows, t.key, t.account, x);
    }
  }

  lemma RevokeIsLocal(s: State, tx: nat, after: Aftermath, x: Id)
    requires tx in s.flight && s.flight[tx].Revoking? && x != s.flight[tx].account
    ensures SameFor(s.db, FinishRevoking(s, tx, s.flight[tx], after).db, x)
  {
    hide Settle, Blocked, SessionsWithout, ConnectionsWithout, SameRows, SameSessions, SameConnections;
    Unchanged(s.db, x);
    var t := s.flight[tx];
    SessionsAreLocal(s.db.sessions, t.account, x);
    ConnectionsAreLocal(s.db.connections, t.account, x);
    UpdatesAreLocal(s.db.rows, t.account, 0, x);
    var sessions := if after.dropSessions then SessionsWithout(s.db.sessions, t.account) else s.db.sessions;
    if after.session.Some? && after.session.value.0 !in sessions {
      SessionIsLocal(s.db.sessions, sessions, after.session.value.0, Session(t.account, after.session.value.1), x);
    }
  }

  lemma RedeemIsLocal(s: State, tx: nat, token: Text, x: Id)
    requires tx in s.flight && s.flight[tx].Consumed? && x !in RowAccount(s, tx)
    ensures SameFor(s.db, FinishRedeeming(s, tx, s.flight[tx], token).db, x)
  {
  }

  lemma FinishInsertIsLocal(s: State, tx: nat, now: Time, x: Id)
    requires tx in s.flight && s.flight[tx].Inserting? && x != s.flight[tx].account
    ensures SameFor(s.db, FinishInserting(s, tx, s.flight[tx], now).db, x)
  {
  }

  /** Whatever a step does, it leaves every account it does not touch exactly as it was. */
  lemma StepIsLocal(s: State, step: Step, x: Id)
    requires x !in Touched(s, step) && !step.PurgeExpired?
    ensures SameFor(s.db, Apply(s, step).db, x)
  {
    hide FinishCreating, FinishInserting, FinishRedeeming, FinishConfirming, FinishRevoking, CancelOpen, SameRows,
         SameSessions, SameConnections, SameAccount, Blocked, CanExclude, CanShare, Claimed, Redeemable, EmailTaken;
    Unchanged(s.db, x);
    match step
    case FinishCreate(tx, now) =>
      if tx in s.flight && s.flight[tx].Creating? {
        CreateIsLocal(s, tx, now, x);
      }
    case FinishInsert(tx, now) =>
      if tx in s.flight && s.flight[tx].Inserting? {
        FinishInsertIsLocal(s, tx, now, x);
      }
    case FinishRedeem(tx, token) =>
      if tx in s.flight && s.flight[tx].Consumed? {
        RedeemIsLocal(s, tx, token, x);
      }
    case FinishConfirm(tx, token, expiresAt) =>
      if tx in s.flight && s.flight[tx].Confirming? {
        ConfirmIsLocal(s, tx, token, expiresAt, x);
      }
    case FinishRevoke(tx, after) =>
      if tx in s.flight && s.flight[tx].Revoking? {
        RevokeIsLocal(s, tx, after, x);
      }
    case CancelLinks(account, now) => UpdatesAreLocal(s.db.rows, account, now, x);
    case _ =>
  }

  /** Over any interleaving: an account that no step touches keeps its generation, capabilities, sessions and
      connections. */
  lemma {:induction false} RunIsLocal(s: State, steps: seq<Step>, x: Id)
    requires forall k | 0 <= k < |steps| :: !steps[k].PurgeExpired? && x !in Touched(Run(s, steps[..k]), steps[k])
    ensures SameFor(s.db, Run(s, steps).db, x)
  {
    hide Apply, Touched, SameFor;
    if steps == [] {
      Unchanged(s.db, x);
    } else {
      var init := steps[..|steps| - 1];
      forall k | 0 <= k < |init|
        ensures !init[k].PurgeExpired? && x !in Touched(Run(s, init[..k]), init[k])
      {
        assert init[..k] == steps[..k];
      }
      RunIsLocal(s, init, x);
      StepIsLocal(Run(s, init), steps[|steps| - 1], x);
      SameTrans(s.db, Run(s, init).db, Run(s, steps).db, x);
    }
  }

  /** The purge deletes link codes a day after they were made, email-change tokens that have expired or were used, and
      sessions that have expired; it touches nothing else. */
  lemma PurgeIsExact(s: State, now: Time, k: Key, token: Text)
    requires forall x | x in s.flight :: !s.flight[x].Consumed?
    ensures
      var t := Apply(s, PurgeExpired(now));
      && t == s.(db := s.db.(rows := t.db.rows, sessions := t.db.sessions))
      && (k in t.db.rows ==> k in s.db.rows && t.db.rows[k] == s.db.rows[k])
      && (k in s.db.rows && k.kind == LinkCode ==> (k in t.db.rows <==> now < s.db.rows[k].createdAt + DAY))
      && (k in s.db.rows && k.kind == EmailChange ==>
            (k in t.db.rows <==> now < s.db.rows[k].expiresAt && s.db.rows[k].status != Used))
      && (token in t.db.sessions <==> token in s.db.sessions && now < s.db.sessions[token].expiresAt)
      && (token in t.db.sessions ==> t.db.sessions[token] == s.db.sessions[token])
  {
  }
}
