/** The transactions of the account store one after the other: what a capability gives its holder, and what a revocation
    takes away. */
module CapabilityFlows {
  import opened Basics
  import opened AccountLinks

  predicate Quiet(s: State) {
    s.flight == map[]
  }

  function Create(s: State, key: Key, account: Id, expected: nat, payload: Text, expiresAt: Time, now: Time): State {
    Apply(Apply(s, BeginCreate(0, key, account, expected, payload, expiresAt)), FinishCreate(0, now))
  }

  function Redeem(s: State, key: Key, token: Text, now: Time): State {
    Apply(Apply(Apply(Apply(s, Look(0, key, now)), LockShared(0)), Claim(0)), FinishRedeem(0, token))
  }

  function Confirm(s: State, key: Key, token: Text, until: Time, now: Time): State {
    Apply(Apply(Apply(s, Look(0, key, now)), LockExclusive(0)), FinishConfirm(0, token, until))
  }

  function Revoke(s: State, account: Id): State {
    Apply(Apply(s, BeginRevoke(0, account)), FinishRevoke(0, Aftermath(true, true, None)))
  }

  /** The sessions of the other accounts, and those alone, are left. */
  ghost predicate OnlyOthersSessions(before: map<Text, Session>, after: map<Text, Session>, account: Id) {
    forall x :: if x in before && before[x].account != account then x in after && after[x] == before[x] else x !in after
  }

  ghost predicate OnlyOthersConnections(before: map<Text, Id>, after: map<Text, Id>, account: Id) {
    forall x :: if x in before && before[x] != account then x in after && after[x] == before[x] else x !in after
  }

  /** The new capability is the account's only open one of its kind, and no other row has changed. */
  ghost predicate OnlyOpen(before: Rows, after: Rows, key: Key, account: Id, now: Time) {
    && (forall k | k in after && k != key && PendingFor(k, after[k], key.kind, account) :: after[k].expiresAt <= now)
    && (forall k | k in before && !PendingFor(k, before[k], key.kind, account) :: k in after && after[k] == before[k])
    && (forall k | k in after && k != key :: k in before)
  }

  lemma Retires(rows: Rows, key: Key, account: Id, r: Row, now: Time)
    requires key !in rows
    ensures
      var kept := if key.kind == LinkCode then CancelOpen(rows, account, now) else DropOpen(rows, account);
      key !in kept && OnlyOpen(rows, kept[key := r], key, account, now)
  {
  }

  /** Creating with the current generation adds the capability; with any other generation nothing changes. */
  lemma CreateAlone(s: State, key: Key, account: Id, expected: nat, payload: Text, expiresAt: Time, now: Time)
    requires Quiet(s) && account in s.db.accounts && key !in s.db.rows
    requires key.kind == EmailChange ==> s.db.accounts[account].verified && !EmailTaken(s.db.accounts, account, payload)
    ensures var t := Create(s, key, account, expected, payload, expiresAt, now);
            if expected == s.db.accounts[account].generation then
              && Quiet(t) && t.db.(rows := map[]) == s.db.(rows := map[])
              && key in t.db.rows && t.db.rows[key] == Row(account, expected, payload, now, expiresAt, Pending)
              && OnlyOpen(s.db.rows, t.db.rows, key, account, now)
              && t.log == s.log + [Created(key, account, expected, true)]
            else t == s
  {
    hide EmailTaken, CancelOpen, DropOpen, OnlyOpen;
    var a := Apply(s, BeginCreate(0, key, account, expected, payload, expiresAt));
    assert a != s ==> a == s.(flight := map[0 := Creating(key, account, expected, payload, expiresAt)]);
    Retires(s.db.rows, key, account, Row(account, expected, payload, now, expiresAt, Pending), now);
  }

  /** Redeeming works exactly for a pending, unexpired code of the account's generation, with a token not yet taken;
      otherwise nothing changes. */
  lemma RedeemAlone(s: State, key: Key, token: Text, now: Time)
    requires Quiet(s) && key.kind == LinkCode && key in s.db.rows && s.db.rows[key].account in s.db.accounts
    ensures var account := s.db.rows[key].account;
            var t := Redeem(s, key, token, now);
            if Redeemable(s.db.rows, key, s.db.accounts[account].generation, now) && token !in s.db.connections then
              && Quiet(t)
              && t.db == s.db.(rows := s.db.rows[key := s.db.rows[key].(status := Used)],
                               connections := s.db.connections[token := account])
              && t.log == s.log + [Redeemed(key, account, s.db.accounts[account].generation)]
            else t == s
  {
    var account := s.db.rows[key].account;
    var generation := s.db.accounts[account].generation;
    var a := Apply(s, Look(0, key, now));
    assert a == s.(flight := map[0 := Looking(key, account, now)]);
    var b := Apply(a, LockShared(0));
    assert b == s.(flight := map[0 := Redeeming(key, account, generation, now)]);
    var c := Apply(b, Claim(0));
    if Redeemable(s.db.rows, key, generation, now) {
      assert c == s.(flight := map[0 := Consumed(key, account, generation)]);
    } else {
      assert c == s;
    }
  }

  /** No open capability of the account is left, and the others are as they were. */
  lemma SettledRows(rows: Rows, account: Id)
    ensures forall k | k in rows && PendingFor(k, rows[k], LinkCode, account) ::
              k in Settle(rows, account) && Settle(rows, account)[k] == rows[k].(status := Cancelled)
    ensures forall k | k in rows && PendingFor(k, rows[k], EmailChange, account) :: k !in Settle(rows, account)
    ensures forall k | k in Settle(rows, account) && Settle(rows, account)[k].account == account ::
              Settle(rows, account)[k].status != Pending
    ensures forall k | k in rows && (rows[k].status != Pending || rows[k].account != account) ::
              k in Settle(rows, account) && Settle(rows, account)[k] == rows[k]
    ensures forall k | k in Settle(rows, account) :: k in rows && Settle(rows, account)[k].account == rows[k].account
  {
  }

  /** What a confirmed email change leaves: the new address and generation, no open capability, one session. */
  ghost predicate EmailMoved(s: State, t: State, key: Key, token: Text, until: Time)
    requires key in s.db.rows && s.db.rows[key].account in s.db.accounts
  {
    var r := s.db.rows[key];
    var was := s.db.accounts[r.account].generation;
    && Quiet(t)
    && t.db.accounts == s.db.accounts[r.account := Account(was + 1, r.payload, true)]
    && (forall k | k in t.db.rows && t.db.rows[k].account == r.account :: t.db.rows[k].status != Pending)
    && (forall k | k in s.db.rows && s.db.rows[k].account != r.account ::
          k in t.db.rows && t.db.rows[k] == s.db.rows[k])
    && key in t.db.rows && t.db.rows[key] == r.(status := Used)
    && token in t.db.sessions && t.db.sessions[token] == Session(r.account, until)
    && OnlyOthersSessions(s.db.sessions, t.db.sessions - {token}, r.account)
    && t.db.connections == s.db.connections
    && t.log == s.log + [Redeemed(key, r.account, was), Revoked(r.account, was + 1)]
  }

  /** Confirming works exactly for a verified account and a pending, unexpired token of its generation whose address is
      free; otherwise nothing changes. */
  lemma ConfirmAlone(s: State, key: Key, token: Text, until: Time, now: Time)
    requires Quiet(s) && key.kind == EmailChange && key in s.db.rows && s.db.rows[key].account in s.db.accounts
    requires token in s.db.sessions ==> s.db.sessions[token].account == s.db.rows[key].account
    ensures var r := s.db.rows[key];
            if s.db.accounts[r.account].verified
              && Redeemable(s.db.rows, key, s.db.accounts[r.account].generation, now)
              && !EmailTaken(s.db.accounts, r.account, r.payload) then
              EmailMoved(s, Confirm(s, key, token, until, now), key, token, until)
            else Confirm(s, key, token, until, now) == s
  {
    hide EmailTaken, Settle, EmailMoved;
    var r := s.db.rows[key];
    var a := Apply(s, Look(0, key, now));
    if a != s {
      assert a == s.(flight := map[0 := Looking(key, r.account, now)]);
      var b := Apply(a, LockExclusive(0));
      assert b == s.(flight := map[0 := Confirming(key, r.account, now)]);
      if Confirmable(s.db, b.flight[0]) {
        FinishMoves(s, key, token, until, now);
      }
    }
  }

  lemma NewSession(sessions: map<Text, Session>, account: Id, token: Text, until: Time)
    requires token in sessions ==> sessions[token].account == account
    ensures token !in SessionsWithout(sessions, account)
    ensures OnlyOthersSessions(sessions, SessionsWithout(sessions, account)[token := Session(account, until)] - {token},
                               account)
  {
  }

  lemma FinishMoves(s: State, key: Key, token: Text, until: Time, now: Time)
    requires Quiet(s) && key in s.db.rows
    requires token in s.db.sessions ==> s.db.sessions[token].account == s.db.rows[key].account
    requires Confirmable(s.db, Confirming(key, s.db.rows[key].account, now))
    ensures
      var t := Confirming(key, s.db.rows[key].account, now);
      EmailMoved(s, FinishConfirming(s.(flight := map[0 := t]), 0, t, token, until), key, token, until)
  {
    hide EmailTaken, Settle, SessionsWithout, OnlyOthersSessions, Redeemable;
    SettledRows(s.db.rows[key := s.db.rows[key].(status := Used)], s.db.rows[key].account);
    NewSession(s.db.sessions, s.db.rows[key].account, token, until);
  }

  /** Revoking everything raises the generation by one and leaves the account no open capability, session or
      connection. */
  lemma RevokeAlone(s: State, account: Id)
    requires Quiet(s) && account in s.db.accounts
    ensures var was := s.db.accounts[account];
            var t := Revoke(s, account);
            && Quiet(t)
            && t.db.accounts == s.db.accounts[account := was.(generation := was.generation + 1)]
            && t.db.rows == Settle(s.db.rows, account)
            && OnlyOthersSessions(s.db.sessions, t.db.sessions, account)
            && OnlyOthersConnections(s.db.connections, t.db.connections, account)
            && t.log == s.log + [Revoked(account, was.generation + 1)]
  {
    hide Settle;
    var a := Apply(s, BeginRevoke(0, account));
    assert a == s.(flight := map[0 := Revoking(account)]);
  }

  // ---------------------------------------------------------------------------------------------
  // From creation to use

  /** A link code made under the account's generation connects a desktop to the account while it lasts, once; after a
      revocation it connects none, and the other accounts keep their connections and sessions. */
  lemma LinkCodeConnects(s: State, hash: Text, account: Id, expiresAt: Time, madeAt: Time, now: Time, token: Text,
                         other: Text)
    requires Quiet(s) && account in s.db.accounts && Key(LinkCode, hash) !in s.db.rows
    ensures
      var key := Key(LinkCode, hash);
      var made := Create(s, key, account, s.db.accounts[account].generation, [], expiresAt, madeAt);
      var used := Redeem(made, key, token, now);
      var revoked := Revoke(made, account);
      && (now < expiresAt && token !in s.db.connections ==>
            used.db.connections == s.db.connections[token := account] && Redeem(used, key, other, now) == used)
      && (expiresAt <= now || token in s.db.connections ==> used == made)
      && Redeem(revoked, key, token, now) == revoked
      && OnlyOthersSessions(s.db.sessions, revoked.db.sessions, account)
      && OnlyOthersConnections(s.db.connections, revoked.db.connections, account)
  {
    hide Create, Redeem, Revoke, Settle, OnlyOpen, OnlyOthersSessions, OnlyOthersConnections;
    var key := Key(LinkCode, hash);
    CreateAlone(s, key, account, s.db.accounts[account].generation, [], expiresAt, madeAt);
    var m := Create(s, key, account, s.db.accounts[account].generation, [], expiresAt, madeAt);
    RedeemAlone(m, key, token, now);
    var used := Redeem(m, key, token, now);
    if used != m {
      RedeemAlone(used, key, other, now);
    }
    RevokeAlone(m, account);
    SettledRows(m.db.rows, account);
    RedeemAlone(Revoke(m, account), key, token, now);
  }

  /** An email-change token made under the account's generation moves the account to its address, and with it the
      generation: no capability made before is open afterwards, the new session is the account's only one, the other
      accounts keep theirs, and the token works no second time. */
  lemma EmailTokenMoves(s: State, hash: Text, account: Id, email: Text, expiresAt: Time, madeAt: Time, now: Time,
                        token: Text, until: Time)
    requires Quiet(s) && account in s.db.accounts && Key(EmailChange, hash) !in s.db.rows
    requires s.db.accounts[account].verified && !EmailTaken(s.db.accounts, account, email)
    requires now < expiresAt && (token in s.db.sessions ==> s.db.sessions[token].account == account)
    ensures
      var key := Key(EmailChange, hash);
      var made := Create(s, key, account, s.db.accounts[account].generation, email, expiresAt, madeAt);
      var moved := Confirm(made, key, token, until, now);
      && moved.db.accounts ==
         s.db.accounts[account := Account(s.db.accounts[account].generation + 1, email, true)]
      && (forall k | k in moved.db.rows && moved.db.rows[k].account == account :: moved.db.rows[k].status != Pending)
      && token in moved.db.sessions && moved.db.sessions[token] == Session(account, until)
      && OnlyOthersSessions(s.db.sessions, moved.db.sessions - {token}, account)
      && moved.db.connections == s.db.connections
      && Confirm(moved, key, token, until, now) == moved
  {
    hide Create, Confirm, EmailTaken, OnlyOpen, OnlyOthersSessions;
    var key := Key(EmailChange, hash);
    CreateAlone(s, key, account, s.db.accounts[account].generation, email, expiresAt, madeAt);
    var m := Create(s, key, account, s.db.accounts[account].generation, email, expiresAt, madeAt);
    ConfirmAlone(m, key, token, until, now);
    ConfirmAlone(Confirm(m, key, token, until, now), key, token, until, now);
  }
}
