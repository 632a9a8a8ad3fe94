/** The account store's one-time capabilities, desktop-link codes and email-change tokens, under the account's
    security generation: the statements of concurrent transactions, interleaved under the database's row locks. */
module AccountLinks {
  import opened Basics

  type Id = Text

  datatype Kind = LinkCode | EmailChange
  datatype Key = Key(kind: Kind, hash: Text)
  datatype Status = Pending | Used | Cancelled

  datatype Row = Row(account: Id, generation: nat, payload: Text, createdAt: Time, expiresAt: Time, status: Status)
  datatype Account = Account(generation: nat, email: Text, verified: bool)
  datatype Session = Session(account: Id, expiresAt: Time)

  type Rows = map<Key, Row>
  type Accounts = map<Id, Account>

  datatype Database = Database(accounts: Accounts, rows: Rows, sessions: map<Text, Session>, connections: map<Text, Id>)

  /** A transaction in flight, by what it has done so far. */
  datatype Txn =
    // account locked, generation matched
    | Creating(key: Key, account: Id, generation: nat, payload: Text, expiresAt: Time)
    // generation read, nothing locked
    | Inserting(key: Key, account: Id, generation: nat, expiresAt: Time)
    // owner read, nothing locked
    | Looking(key: Key, account: Id, now: Time)
    // account share-locked, generation read
    | Redeeming(key: Key, account: Id, generation: nat, now: Time)
    // and the code row claimed
    | Consumed(key: Key, account: Id, generation: nat)
    // account locked
    | Confirming(key: Key, account: Id, now: Time)
    | Revoking(account: Id)

  type Flight = map<nat, Txn>

  /** What happened, in the order it took effect. */
  datatype Event =
    | SessionRead(account: Id, generation: nat)
    | Created(key: Key, account: Id, generation: nat, checked: bool)
    | Redeemed(key: Key, account: Id, generation: nat)
    | Revoked(account: Id, generation: nat)

  datatype State = State(db: Database, flight: Flight, log: seq<Event>)

  const DAY: int := 24 * 3600 * SECOND

  // ---------------------------------------------------------------------------------------------
  // Locks

  /** Holds the account row for update. */
  predicate Excludes(t: Txn, account: Id) {
    (t.Creating? || t.Confirming? || t.Revoking?) && t.account == account
  }

  /** Holds the account row for update or shared. */
  predicate Holds(t: Txn, account: Id) {
    Excludes(t, account) || ((t.Redeeming? || t.Consumed?) && t.account == account)
  }

  predicate CanExclude(flight: Flight, account: Id) {
    forall x | x in flight :: !Holds(flight[x], account)
  }

  predicate CanShare(flight: Flight, account: Id) {
    forall x | x in flight :: !Excludes(flight[x], account)
  }

  predicate Claimed(flight: Flight, key: Key) {
    exists x | x in flight :: flight[x].Consumed? && flight[x].key == key
  }

  // ---------------------------------------------------------------------------------------------
  // Row updates

  predicate PendingFor(k: Key, r: Row, kind: Kind, account: Id) {
    k.kind == kind && r.account == account && r.status == Pending
  }

  /** Cancels the account's open link codes that have not expired. */
  function CancelOpen(rows: Rows, account: Id, now: Time): Rows {
    map k | k in rows ::
      if PendingFor(k, rows[k], LinkCode, account) && rows[k].expiresAt > now then rows[k].(status := Cancelled)
        else rows[k]
  }

  /** Deletes the account's open email-change tokens. */
  function DropOpen(rows: Rows, account: Id): Rows {
    map k | k in rows && !PendingFor(k, rows[k], EmailChange, account) :: rows[k]
  }

  /** Cancels every open link code of the account and deletes its open email-change tokens. */
  function Settle(rows: Rows, account: Id): Rows {
    map k | k in rows && !PendingFor(k, rows[k], EmailChange, account) ::
      if PendingFor(k, rows[k], LinkCode, account) then rows[k].(status := Cancelled) else rows[k]
  }

  predicate Stale(k: Key, r: Row, now: Time) {
    match k.kind
    case LinkCode => r.createdAt <= now - DAY
    case EmailChange => r.expiresAt <= now || r.status == Used
  }

  function Purge(rows: Rows, now: Time): Rows {
    map k | k in rows && !Stale(k, rows[k], now) :: rows[k]
  }

  function LiveSessions(sessions: map<Text, Session>, now: Time): map<Text, Session> {
    map token | token in sessions && now < sessions[token].expiresAt :: sessions[token]
  }

  function SessionsWithout(sessions: map<Text, Session>, account: Id): map<Text, Session> {
    map token | token in sessions && sessions[token].account != account :: sessions[token]
  }

  function ConnectionsWithout(connections: map<Text, Id>, account: Id): map<Text, Id> {
    map token | token in connections && connections[token] != account :: connections[token]
  }

  // ---------------------------------------------------------------------------------------------
  // Steps

  /** Which sessions and connections a revoking transaction leaves behind. */
  datatype Aftermath = Aftermath(dropSessions: bool, dropConnections: bool, session: Option<(Text, Time)>)

  datatype Step =
    | ReadSession(token: Text, now: Time)
    | BeginCreate(tx: nat, key: Key, account: Id, expected: nat, payload: Text, expiresAt: Time)
    | FinishCreate(tx: nat, now: Time)
    | BeginInsert(tx: nat, hash: Text, account: Id, expiresAt: Time)
    | FinishInsert(tx: nat, now: Time)
    | Look(tx: nat, key: Key, now: Time)
    | LockShared(tx: nat)
    | Claim(tx: nat)
    | FinishRedeem(tx: nat, token: Text)
    | LockExclusive(tx: nat)
    | FinishConfirm(tx: nat, token: Text, expiresAt: Time)
    | BeginRevoke(tx: nat, account: Id)
    | FinishRevoke(tx: nat, after: Aftermath)
    | Abort(tx: nat)
    | CancelLinks(account: Id, now: Time)
    | PurgeExpired(now: Time)

  function Leave(s: State, tx: nat): State {
    s.(flight := s.flight - {tx})
  }

  /** The locking read of the generation, and for an email change the checks on the account that follow it. */
  function BeginCreating(s: State, tx: nat, key: Key, account: Id, expected: nat, payload: Text,
                         expiresAt: Time): State {
    if account !in s.db.accounts || !CanExclude(s.flight, account)
      || s.db.accounts[account].generation != expected then s
    else if key.kind == EmailChange && (!s.db.accounts[account].verified
                                        || EmailTaken(s.db.accounts, account, payload)) then s
    else s.(flight := s.flight[tx := Creating(key, account, expected, payload, expiresAt)])
  }

  predicate EmailTaken(accounts: Accounts, account: Id, email: Text) {
    exists other | other in accounts :: other != account && accounts[other].email == email
  }

  /** An update of rows waits while a row it changes is claimed. */
  predicate Blocked(s: State, rows: Rows) {
    exists k | k in s.db.rows :: (k !in rows || rows[k] != s.db.rows[k]) && Claimed(s.flight, k)
  }

  /** Retires what the new capability replaces, inserts it and commits; a hash that still has a row fails. */
  function FinishCreating(s: State, tx: nat, t: Txn, now: Time): State
    requires t.Creating?
  {
    var kept := if t.key.kind == LinkCode then CancelOpen(s.db.rows, t.account, now)
        else DropOpen(s.db.rows, t.account);
    if Blocked(s, kept) then s
    else if t.key in kept then Leave(s, tx)
    else
      State(s.db.(rows := kept[t.key := Row(t.account, t.generation, t.payload, now, t.expiresAt, Pending)]),
            s.flight - {tx}, s.log + [Created(t.key, t.account, t.generation, true)])
  }

  /** The insertion that copies the generation it reads, without a lock. */
  function FinishInserting(s: State, tx: nat, t: Txn, now: Time): State
    requires t.Inserting?
  {
    if t.key in s.db.rows then Leave(s, tx)
    else
      State(s.db.(rows := s.db.rows[t.key := Row(t.account, t.generation, [], now, t.expiresAt, Pending)]),
            s.flight - {tx}, s.log + [Created(t.key, t.account, t.generation, false)])
  }

  function LookUp(s: State, tx: nat, key: Key, now: Time): State {
    if key !in s.db.rows then s
    else if key.kind == EmailChange && (s.db.rows[key].status == Used || s.db.rows[key].expiresAt <= now) then s
    else s.(flight := s.flight[tx := Looking(key, s.db.rows[key].account, now)])
  }

  function ShareLock(s: State, tx: nat, t: Txn): State
    requires t.Looking?
  {
    if t.account !in s.db.accounts then Leave(s, tx)
    else if !CanShare(s.flight, t.account) then s
    else s.(flight := s.flight[tx := Redeeming(t.key, t.account, s.db.accounts[t.account].generation, t.now)])
  }

  predicate Redeemable(rows: Rows, key: Key, generation: nat, now: Time) {
    key in rows && rows[key].status == Pending && rows[key].expiresAt > now && rows[key].generation == generation
  }

  /** The conditional update that claims the code; it waits for another claim of the same code. */
  function ClaimRow(s: State, tx: nat, t: Txn): State
    requires t.Redeeming?
  {
    if Claimed(s.flight, t.key) then s
    else if !Redeemable(s.db.rows, t.key, t.generation, t.now) then Leave(s, tx)
    else s.(flight := s.flight[tx := Consumed(t.key, t.account, t.generation)])
  }

  /** Connects the account of the claimed row and commits; a token that is taken fails. */
  function FinishRedeeming(s: State, tx: nat, t: Txn, token: Text): State
    requires t.Consumed?
  {
    if t.key !in s.db.rows || token in s.db.connections then Leave(s, tx)
    else
      var r := s.db.rows[t.key];
      State(s.db.(rows := s.db.rows[t.key := r.(status := Used)],
                  connections := s.db.connections[token := r.account]),
            s.flight - {tx}, s.log + [Redeemed(t.key, r.account, t.generation)])
  }

  function ExclusiveLock(s: State, tx: nat, t: Txn): State
    requires t.Looking?
  {
    if t.account !in s.db.accounts then Leave(s, tx)
    else if !CanExclude(s.flight, t.account) then s
    else s.(flight := s.flight[tx := Confirming(t.key, t.account, t.now)])
  }

  predicate Confirmable(db: Database, t: Txn)
    requires t.Confirming?
  {
    && t.account in db.accounts && db.accounts[t.account].verified
    && Redeemable(db.rows, t.key, db.accounts[t.account].generation, t.now)
    && !EmailTaken(db.accounts, t.account, db.rows[t.key].payload)
  }

  /** Consumes the token, changes the address, raises the generation and replaces the sessions. */
  function FinishConfirming(s: State, tx: nat, t: Txn, token: Text, expiresAt: Time): State
    requires t.Confirming?
  {
    var others := SessionsWithout(s.db.sessions, t.account);
    if !Confirmable(s.db, t) || token in others then Leave(s, tx)
    else
      var account := s.db.accounts[t.account];
      var settled := Settle(s.db.rows[t.key := s.db.rows[t.key].(status := Used)], t.account);
      if Blocked(s, settled) then s
      else State(
        Database(s.db.accounts[t.account := Account(account.generation + 1, s.db.rows[t.key].payload, true)],
                 settled, others[token := Session(t.account, expiresAt)], s.db.connections),
        s.flight - {tx},
        s.log + [Redeemed(t.key, t.account, account.generation)] + [Revoked(t.account, account.generation + 1)])
  }

  function BeginRevoking(s: State, tx: nat, account: Id): State {
    if account !in s.db.accounts || !CanExclude(s.flight, account) then s
    else s.(flight := s.flight[tx := Revoking(account)])
  }

  /** Raises the generation, settles the account's rows and leaves what the operation is to leave of its sessions and
      connections. */
  function FinishRevoking(s: State, tx: nat, t: Txn, after: Aftermath): State
    requires t.Revoking?
  {
    var sessions := if after.dropSessions then SessionsWithout(s.db.sessions, t.account) else s.db.sessions;
    var settled := Settle(s.db.rows, t.account);
    if t.account !in s.db.accounts || (after.session.Some? && after.session.value.0 in sessions) then Leave(s, tx)
    else if Blocked(s, settled) then s
    else
      var account := s.db.accounts[t.account];
      State(Database(s.db.accounts[t.account := account.(generation := account.generation + 1)], settled,
                     match after.session {
                       case None => sessions
                       case Some(entry) => sessions[entry.0 := Session(t.account, entry.1)]
                     },
                     if after.dropConnections then ConnectionsWithout(s.db.connections, t.account)
                     else s.db.connections),
            s.flight - {tx}, s.log + [Revoked(t.account, account.generation + 1)])
  }

  /** A statement outside a transaction that changes rows. */
  function Rewrite(s: State, rows: Rows): State {
    if Blocked(s, rows) then s else s.(db := s.db.(rows := rows))
  }

  function Apply(s: State, step: Step): State {
    match step
    case ReadSession(token, now) =>
      if token in s.db.sessions && s.db.sessions[token].expiresAt > now
        && s.db.sessions[token].account in s.db.accounts then
        var account := s.db.sessions[token].account;
        s.(log := s.log + [SessionRead(account, s.db.accounts[account].generation)])
      else s
    case BeginCreate(tx, key, account, expected, payload, expiresAt) =>
      if tx in s.flight then s else BeginCreating(s, tx, key, account, expected, payload, expiresAt)
    case FinishCreate(tx, now) =>
      if tx in s.flight && s.flight[tx].Creating? then FinishCreating(s, tx, s.flight[tx], now) else s
    case BeginInsert(tx, hash, account, expiresAt) =>
      if tx in s.flight || account !in s.db.accounts then s
      else s.(flight := s.flight[tx := Inserting(Key(LinkCode, hash), account, s.db.accounts[account].generation,
                                                 expiresAt)])
    case FinishInsert(tx, now) =>
      if tx in s.flight && s.flight[tx].Inserting? then FinishInserting(s, tx, s.flight[tx], now) else s
    case Look(tx, key, now) =>
      if tx in s.flight then s else LookUp(s, tx, key, now)
    case LockShared(tx) =>
      if tx in s.flight && s.flight[tx].Looking?
        && s.flight[tx].key.kind == LinkCode then ShareLock(s, tx, s.flight[tx]) else s
    case Claim(tx) =>
      if tx in s.flight && s.flight[tx].Redeeming? then ClaimRow(s, tx, s.flight[tx]) else s
    case FinishRedeem(tx, token) =>
      if tx in s.flight && s.flight[tx].Consumed? then FinishRedeeming(s, tx, s.flight[tx], token) else s
    case LockExclusive(tx) =>
      if tx in s.flight && s.flight[tx].Looking?
        && s.flight[tx].key.kind == EmailChange then ExclusiveLock(s, tx, s.flight[tx]) else s
    case FinishConfirm(tx, token, expiresAt) =>
      if tx in s.flight && s.flight[tx].Confirming? then FinishConfirming(s, tx, s.flight[tx], token, expiresAt) else s
    case BeginRevoke(tx, account) =>
      if tx in s.flight then s else BeginRevoking(s, tx, account)
    case FinishRevoke(tx, after) =>
      if tx in s.flight && s.flight[tx].Revoking? then FinishRevoking(s, tx, s.flight[tx], after) else s
    case Abort(tx) => Leave(s, tx)
    case CancelLinks(account, now) => Rewrite(s, CancelOpen(s.db.rows, account, now))
    case PurgeExpired(now) =>
      if Blocked(s, Purge(s.db.rows, now)) then s
      else s.(db := s.db.(rows := Purge(s.db.rows, now), sessions := LiveSessions(s.db.sessions, now)))
  }

  function Run(s: State, steps: seq<Step>): State {
    if steps == [] then s else Apply(Run(s, steps[..|steps| - 1]), steps[|steps| - 1])
  }
}
