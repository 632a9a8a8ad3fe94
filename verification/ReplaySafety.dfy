/** A signed request takes effect at most once, over every run of the service. */
module ReplaySafety {
  import opened Basics
  import opened Tables
  import opened Operations
  import opened ServiceRuns

  /** The longest a request may take between its skew check and recording its nonce. */
  const SLACK: Time := 59 * SECOND

  /** That bound, less however far the clock read before 1970 at the first use. */
  function SlackAfter(skew: Time): Time {
    SLACK + (if skew < 0 then skew else 0)
  }

  // ---------------------------------------------------------------------------------------------
  // The clock arithmetic

  /** The record a first use makes is still in force when a second use records. */
  lemma RecordCatches(first: Clock, second: Clock, timestamp: nat)
    requires first.skew <= first.stamp
    requires WithinSkew(timestamp, Unix(first.skew)) && WithinSkew(timestamp, Unix(second.skew))
    requires second.record <= second.skew + SlackAfter(first.skew)
    ensures second.record < Expiry(first)
  {
    assert second.skew < (Unix(second.skew) + 1) * SECOND;
    assert 0 <= first.skew ==> Unix(first.skew) * SECOND <= first.skew;
  }

  /** A first and a second use of one request, with the first not before `low` and the second stalling at most
      `stall` between skew check and record. */
  predicate TwoUses(first: Clock, second: Clock, timestamp: nat, low: Time, stall: Time) {
    && first.Ordered() && second.Ordered() && first.act <= second.lookup
    && low <= first.skew && second.record <= second.skew + stall
    && WithinSkew(timestamp, Unix(first.skew)) && WithinSkew(timestamp, Unix(second.skew))
  }

  ghost predicate AlwaysCaught(low: Time, stall: Time) {
    forall first, second, timestamp | TwoUses(first, second, timestamp, low, stall) :: second.record < Expiry(first)
  }

  /** Eleven minutes of retention catch every second use exactly when its stall stays within 59 seconds, less however
      far the clock may read before 1970. */
  lemma RetentionIsExact(low: Time, stall: Time)
    requires 0 <= stall
    ensures AlwaysCaught(low, stall) <==> stall <= SlackAfter(low)
  {
    if stall <= SlackAfter(low) {
      forall first, second, timestamp | TwoUses(first, second, timestamp, low, stall)
        ensures second.record < Expiry(first)
      {
        RecordCatches(first, second, timestamp);
      }
    } else {
      var start := if low < 0 then low else (low / SECOND + 1) * SECOND;
      LateSecondUse(low, stall, start, if SlackAfter(low) + 1 < 0 then 0 else SlackAfter(low) + 1);
    }
  }

  /** The latest moment the request still passes the skew check, plus the delay, is past the expiry. */
  lemma LateSecondUse(low: Time, stall: Time, start: Time, delay: Time)
    requires 0 <= delay <= stall
    requires low <= start
    requires start < 0 || start % SECOND == 0
    requires SlackAfter(start) + 1 <= delay
    ensures !AlwaysCaught(low, stall)
  {
    var base := Unix(start);
    var late := (base + 601) * SECOND - 1;
    var first := Clock(start, start, start, start, start);
    var second := Clock(late, late, late, late + delay, late + delay);
    assert Unix(late) == base + 600;
    assert TwoUses(first, second, base + 300, low, stall);
  }

  // ---------------------------------------------------------------------------------------------
  // What each step does to the nonces

  lemma PerformNonces(env: Env, st: State, caller: Caller, op: Op, actor: Option<Actor>, now: Time)
    requires !op.CreateVault? ==> caller.owner in st.vaults
    requires !op.CreateVault? && !op.BeginPairing? ==> actor.Some?
    requires Perform(env, st, caller, op, actor, now).Ok?
    ensures
      var after := Perform(env, st, caller, op, actor, now).value.nonces;
      after == st.nonces || (op.BeginPairing? && after == PurgeNonces(st.nonces, now))
  {
    hide VaultTx, DeviceByToken, WithoutPairingOf, PurgeNonces;
  }

  /** The grant a request gets in a state. */
  ghost function GrantOf(env: Env, st: State, ev: Event): Result<Grant, Error>
    requires ev.Request?
  {
    Authorise(env, st, ev.caller, ev.op, ev.clock.lookup)
  }

  /** Authorisation finds the vault and, where one is needed, an actor. */
  lemma GrantShape(env: Env, st: State, ev: Event)
    requires ev.Request? && GrantOf(env, st, ev).Ok?
    ensures !ev.op.CreateVault? ==> ev.caller.owner in st.vaults
    ensures !ev.op.CreateVault? && !ev.op.BeginPairing? ==> GrantOf(env, st, ev).value.actor.Some?
  {
  }

  /** An accepted request was within the skew, found its nonce unused, and recorded it. */
  lemma AcceptedNonces(env: Env, st: State, ev: Event)
    requires ev.Request?
    requires Step(env, st, ev).answer.Ok?
    ensures GrantOf(env, st, ev).Ok?
    ensures WithinSkew(ev.request.timestamp, Unix(ev.clock.skew))
    ensures
      var key := NonceKey(GrantOf(env, st, ev).value.scope, ev.request.nonce);
      var recorded := st.nonces[key := Expiry(ev.clock)];
      var after := Step(env, st, ev).state.nonces;
      && (key !in st.nonces || st.nonces[key] <= ev.clock.record)
      && (after == recorded || (ev.op.BeginPairing? && after == PurgeNonces(recorded, ev.clock.act)))
  {
    hide Authorise, Perform, PurgeNonces;
    var grant := Authorise(env, st, ev.caller, ev.op, ev.clock.lookup).value;
    GrantShape(env, st, ev);
    var nonces := VerifyRequest(env, st.nonces, grant.scope, grant.key, ev.caller, ev.request, ev.clock).value;
    PerformNonces(env, st.(nonces := nonces), ev.caller, ev.op, grant.actor, ev.clock.act);
  }

  /** A refused request leaves the store as it was; what it spent is its own nonce. */
  lemma RefusedNonces(env: Env, st: State, ev: Event)
    requires ev.Request?
    requires Step(env, st, ev).answer.Err?
    ensures Step(env, st, ev).state == st
    ensures Step(env, st, ev).spent.Some? ==>
              && GrantOf(env, st, ev).Ok?
              && WithinSkew(ev.request.timestamp, Unix(ev.clock.skew))
              && Step(env, st, ev).spent.value ==
                 Spent(NonceKey(GrantOf(env, st, ev).value.scope, ev.request.nonce), ev.clock.record, Expiry(ev.clock))
  {
    hide Authorise, Perform;
  }

  // ---------------------------------------------------------------------------------------------
  // Runs on one clock

  /** The time an event happens at, if it reads the clock. */
  function Began(ev: Event): Option<Time> {
    match ev
    case Request(_, _, _, clock) => Some(clock.lookup)
    case Maintain(now) => Some(now)
    case _ => None
  }

  function Ended(ev: Event): Option<Time> {
    match ev
    case Request(_, _, _, clock) => Some(clock.act)
    case Maintain(now) => Some(now)
    case _ => None
  }

  /** A second write always belongs to an earlier request that was refused after spending its nonce. */
  ghost predicate KeepsEarlier(env: Env, events: seq<Event>, k: nat, i: nat)
    requires k < |events| && events[k].KeepNonce?
  {
    && i < k && events[i].Request?
    && Step(env, Run(env, events[..i]), events[i]).spent == Some(events[k].spent)
  }

  ghost predicate InOrder(events: seq<Event>) {
    && (forall i, j | 0 <= i < j < |events| && Ended(events[i]).Some? && Began(events[j]).Some? ::
          Ended(events[i]).value <= Began(events[j]).value)
    && (forall i | 0 <= i < |events| && events[i].Request? :: events[i].clock.Ordered())
  }

  /** The clock never goes back, within a request or between events, and second writes have a cause. How long a
      request takes is not bounded. */
  ghost predicate Chronological(env: Env, events: seq<Event>) {
    && InOrder(events)
    && (forall k | 0 <= k < |events| && events[k].KeepNonce? :: exists i :: 0 <= i && KeepsEarlier(env, events, k, i))
  }

  /** The scope and nonce event i uses. */
  ghost function KeyOf(env: Env, events: seq<Event>, i: nat): Option<NonceKey>
    requires i < |events|
  {
    if events[i].Request? && GrantOf(env, Run(env, events[..i]), events[i]).Ok? then
      Some(NonceKey(GrantOf(env, Run(env, events[..i]), events[i]).value.scope, events[i].request.nonce))
    else
      None
  }

  /** The nonce is remembered at least until a moment. */
  predicate Held(nonces: map<NonceKey, Time>, key: NonceKey, end: Time) {
    key in nonces && end <= nonces[key]
  }

  /** Event m cannot take away a record of the nonce that lasts until `end`: a purge reads an earlier clock, and so does
      another use or second write of the same nonce. Nothing is asked of any other event. */
  ghost predicate LeavesRecord(env: Env, events: seq<Event>, m: nat, key: NonceKey, end: Time)
    requires m < |events|
  {
    match events[m]
    case Request(_, _, op, clock) =>
      && (KeyOf(env, events, m) == Some(key) ==> clock.record < end)
      && (op.BeginPairing? ==> clock.act < end)
    case KeepNonce(spent) => spent.key == key ==> spent.now < end
    case Maintain(now) => now < end
    case AdminReset(_) => true
  }

  lemma StepHolds(env: Env, events: seq<Event>, m: nat, key: NonceKey, end: Time)
    requires m < |events| && LeavesRecord(env, events, m, key, end)
    requires Held(Run(env, events[..m]).nonces, key, end)
    ensures Held(Run(env, events[..m + 1]).nonces, key, end)
  {
    hide Run;
    RunSnoc(env, events, m);
    var st, ev := Run(env, events[..m]), events[m];
    if ev.Request? {
      hide Step;
      if Step(env, st, ev).answer.Ok? {
        AcceptedNonces(env, st, ev);
      } else {
        RefusedNonces(env, st, ev);
      }
    }
  }

  lemma {:induction false} HeldUntil(env: Env, events: seq<Event>, i: nat, k: nat, key: NonceKey, end: Time)
    requires i <= k <= |events|
    requires forall m | i <= m < k :: LeavesRecord(env, events, m, key, end)
    requires Held(Run(env, events[..i]).nonces, key, end)
    ensures Held(Run(env, events[..k]).nonces, key, end)
    decreases k
  {
    hide Run, Held, LeavesRecord;
    if i < k {
      HeldUntil(env, events, i, k - 1, key, end);
      StepHolds(env, events, k - 1, key, end);
    }
  }

  lemma SpentTime(env: Env, st: State, ev: Event)
    requires ev.Request? && Step(env, st, ev).spent.Some?
    ensures Step(env, st, ev).spent.value.now == ev.clock.record
    ensures Step(env, st, ev).spent.value.expires == Expiry(ev.clock)
    ensures Step(env, st, ev).answer.Err?
  {
    hide Authorise, Perform;
  }

  // ---------------------------------------------------------------------------------------------
  // A use against the table

  /** The request passes the signature and finds its nonce unused. */
  ghost predicate Passes(env: Env, st: State, ev: Event)
    requires ev.Request?
  {
    var grant := GrantOf(env, st, ev);
    grant.Ok? && VerifyRequest(env, st.nonces, grant.value.scope, grant.value.key, ev.caller, ev.request, ev.clock).Ok?
  }

  lemma AcceptedPasses(env: Env, events: seq<Event>, j: nat)
    requires Accepted(env, events, j)
    ensures Passes(env, Run(env, events[..j]), events[j])
    ensures WithinSkew(events[j].request.timestamp, Unix(events[j].clock.skew))
  {
    hide Run, Authorise, Perform;
  }

  /** A record that is held, and ends after the use records, refuses it. */
  lemma HeldIsRefused(env: Env, events: seq<Event>, j: nat, key: NonceKey, end: Time)
    requires j < |events| && events[j].Request? && KeyOf(env, events, j) == Some(key)
    requires Held(Run(env, events[..j]).nonces, key, end) && events[j].clock.record < end
    ensures !Passes(env, Run(env, events[..j]), events[j])
  {
    hide Run, Authorise;
  }

  /** Two uses of one signed request in one scope are never both accepted. Requests may overlap and take any time, the
      serialisation order need not be the order of the clocks, and anything may happen in between except what could
      take the first record away: a purge, or another use of the nonce, that reads a clock past the record's end. Only
      the second use is bound to record within 59 s of its skew check. */
  lemma AtMostOnce(env: Env, events: seq<Event>, i: nat, j: nat)
    requires i < j < |events|
    requires Accepted(env, events, i) && events[i].clock.skew <= events[i].clock.stamp
    requires events[j].Request? && events[j].request.timestamp == events[i].request.timestamp
    requires KeyOf(env, events, i).Some? && KeyOf(env, events, j) == KeyOf(env, events, i)
    requires events[j].clock.record <= events[j].clock.skew + SlackAfter(events[i].clock.skew)
    requires events[i].op.BeginPairing? ==> events[i].clock.act < Expiry(events[i].clock)
    requires forall m | i < m < j :: LeavesRecord(env, events, m, KeyOf(env, events, i).value, Expiry(events[i].clock))
    ensures !Accepted(env, events, j)
  {
    hide Step, Run, Passes;
    if Accepted(env, events, j) {
      var first, second := events[i].clock, events[j].clock;
      var key := KeyOf(env, events, i).value;
      AcceptedPasses(env, events, j);
      AcceptedNonces(env, Run(env, events[..i]), events[i]);
      RecordCatches(first, second, events[i].request.timestamp);
      RunSnoc(env, events, i);
      assert Held(Run(env, events[..i + 1]).nonces, key, Expiry(first));
      HeldUntil(env, events, i + 1, j, key, Expiry(first));
      HeldIsRefused(env, events, j, key, Expiry(first));
    }
  }

  /** On a store that runs one transaction at a time, on a clock that does not go back, nothing in between can take the
      record away before a later use records. */
  lemma OneAtATime(env: Env, events: seq<Event>, m: nat, j: nat, key: NonceKey)
    requires Chronological(env, events) && m < j < |events| && events[j].Request?
    ensures LeavesRecord(env, events, m, key, events[j].clock.record + 1)
  {
    hide Step, Run, GrantOf;
    assert Ended(events[m]).Some? ==> Ended(events[m]).value <= Began(events[j]).value;
    assert events[j].clock.Ordered();
    if events[m].KeepNonce? {
      var i :| 0 <= i && KeepsEarlier(env, events, m, i);
      SpentTime(env, Run(env, events[..i]), events[i]);
      assert Ended(events[i]).value <= Began(events[j]).value;
      assert events[i].clock.Ordered();
    }
  }

  /** So there a request is accepted at most once, whatever else the run holds. */
  lemma AtMostOnceInOrder(env: Env, events: seq<Event>, i: nat, j: nat)
    requires Chronological(env, events) && i < j < |events|
    requires Accepted(env, events, i)
    requires events[j].Request? && events[j].request.timestamp == events[i].request.timestamp
    requires KeyOf(env, events, i).Some? && KeyOf(env, events, j) == KeyOf(env, events, i)
    requires events[j].clock.record <= events[j].clock.skew + SlackAfter(events[i].clock.skew)
    ensures !Accepted(env, events, j)
  {
    hide Step, Run, KeyOf, Expiry;
    if Accepted(env, events, j) {
      AcceptedPasses(env, events, j);
      AcceptedNonces(env, Run(env, events[..i]), events[i]);
      assert events[i].clock.Ordered();
      RecordCatches(events[i].clock, events[j].clock, events[i].request.timestamp);
      var key := KeyOf(env, events, i).value;
      OneAtATime(env, events, i, j, key);
      forall m | i < m < j
        ensures LeavesRecord(env, events, m, key, Expiry(events[i].clock))
      {
        OneAtATime(env, events, m, j, key);
      }
      AtMostOnce(env, events, i, j);
    }
  }
}
