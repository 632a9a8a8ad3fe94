/** Requests that failed after spending their nonce: what the second write of the nonce protects, and when it does
    not. */
module SpentNonces {
  import opened Basics
  import opened Tables
  import opened Operations
  import opened ServiceRuns
  import opened ReplaySafety

  // ---------------------------------------------------------------------------------------------
  // From the failure to its second write

  /** The table holds a record of the nonce that is in force at the failure and ends before the one to be written. */
  predicate Undercut(nonces: map<NonceKey, Time>, spent: Spent) {
    spent.key in nonces && spent.now < nonces[spent.key] < spent.expires
  }

  /** Event m writes an earlier expiry for this nonce: the second write of another failure, or another use that was
      accepted. */
  ghost predicate ShorterWrite(env: Env, events: seq<Event>, m: nat, spent: Spent)
    requires m < |events|
  {
    match events[m]
    case KeepNonce(other) => other.key == spent.key && other.expires < spent.expires
    case Request(_, _, _, clock) => KeyOf(env, events, m) == Some(spent.key) && Expiry(clock) < spent.expires
    case _ => false
  }

  /** What a failed request leaves to be written: its nonce was unused, so nothing undercuts it yet. */
  lemma SpentIsFresh(env: Env, st: State, ev: Event)
    requires ev.Request? && Step(env, st, ev).spent.Some?
    ensures Step(env, st, ev).state == st && !Undercut(st.nonces, Step(env, st, ev).spent.value)
    ensures Step(env, st, ev).spent.value.expires == Expiry(ev.clock)
    ensures WithinSkew(ev.request.timestamp, Unix(ev.clock.skew))
  {
    hide Authorise, Perform;
  }

  lemma StepDoesNotUndercut(env: Env, events: seq<Event>, m: nat, spent: Spent)
    requires m < |events| && !Undercut(Run(env, events[..m]).nonces, spent) && !ShorterWrite(env, events, m, spent)
    ensures !Undercut(Run(env, events[..m + 1]).nonces, spent)
  {
    hide Run;
    RunSnoc(env, events, m);
    var st, ev := Run(env, events[..m]), events[m];
    if ev.Request? {
      hide Step;
      if Step(env, st, ev).answer.Ok? {
        AcceptedNonces(env, st, ev);
      } else {
        RefusedNonces(env, st, ev);
      }
    }
  }

  lemma {:induction false} NothingUndercuts(env: Env, events: seq<Event>, i: nat, k: nat, spent: Spent)
    requires i < k <= |events|
    requires events[i].Request? && Step(env, Run(env, events[..i]), events[i]).spent == Some(spent)
    requires forall m | i < m < k :: !ShorterWrite(env, events, m, spent)
    ensures !Undercut(Run(env, events[..k]).nonces, spent)
    decreases k
  {
    hide Step, Run, Undercut, Expiry, ShorterWrite;
    if k - 1 > i {
      NothingUndercuts(env, events, i, k - 1, spent);
      StepDoesNotUndercut(env, events, k - 1, spent);
    } else {
      SpentIsFresh(env, Run(env, events[..i]), events[i]);
      RunSnoc(env, events, i);
    }
  }

  /** The second write, not undercut, leaves a record until its expiry. */
  lemma WriteHolds(st: State, spent: Spent)
    requires !Undercut(st.nonces, spent)
    ensures Held(Keep(st, spent).nonces, spent.key, spent.expires)
  {
  }

  /** Once the second write of a failed request is in, the request is refused for good, unless a shorter record of the
      nonce was written in between, or something that could take the record away comes after. A failure handled to the
      end before the next request, as the service does it, has nothing in between. */
  lemma FailedRequestStaysSpent(env: Env, events: seq<Event>, i: nat, k: nat, j: nat, spent: Spent)
    requires i < k < j < |events|
    requires events[i].Request? && Step(env, Run(env, events[..i]), events[i]).spent == Some(spent)
    requires events[i].clock.skew <= events[i].clock.stamp
    requires events[k] == KeepNonce(spent) && forall m | i < m < k :: !ShorterWrite(env, events, m, spent)
    requires forall m | k < m < j :: LeavesRecord(env, events, m, spent.key, spent.expires)
    requires events[j].Request? && events[j].request.timestamp == events[i].request.timestamp
    requires KeyOf(env, events, j) == Some(spent.key)
    requires events[j].clock.record <= events[j].clock.skew + SlackAfter(events[i].clock.skew)
    ensures !Accepted(env, events, j)
  {
    hide Run, KeyOf, Submit, PurgeExpired, Passes, Keep, Undercut, Expiry, ShorterWrite, LeavesRecord, Held;
    if Accepted(env, events, j) {
      AcceptedPasses(env, events, j);
      SpentIsFresh(env, Run(env, events[..i]), events[i]);
      RecordCatches(events[i].clock, events[j].clock, events[i].request.timestamp);
      NothingUndercuts(env, events, i, k, spent);
      RunSnoc(env, events, k);
      WriteHolds(Run(env, events[..k]), spent);
      HeldUntil(env, events, k + 1, j, spent.key, spent.expires);
      HeldIsRefused(env, events, j, spent.key, spent.expires);
    }
  }

  // ---------------------------------------------------------------------------------------------
  // Retries of one request

  /** No later than this can a request with this timestamp record its nonce within the 59 seconds. */
  function Deadline(timestamp: nat): Time {
    (timestamp + REQUEST_SKEW + 60) * SECOND
  }

  /** A request after 1970 that records within 59 seconds of its skew check. */
  predicate Prompt(clock: Clock) {
    0 <= clock.skew <= clock.stamp && clock.record <= clock.skew + SLACK
  }

  lemma DeadlineIsBetween(timestamp: nat, clock: Clock)
    requires 0 <= clock.skew <= clock.stamp && WithinSkew(timestamp, Unix(clock.skew))
    ensures Deadline(timestamp) <= Expiry(clock)
    ensures Prompt(clock) ==> clock.record < Deadline(timestamp)
  {
    assert clock.skew - SECOND < Unix(clock.skew) * SECOND <= clock.skew;
  }

  /** Every use of this scope and nonce carries one timestamp, on a clock after 1970. */
  ghost predicate OnlyRetries(env: Env, events: seq<Event>, key: NonceKey, timestamp: nat) {
    forall i | 0 <= i < |events| && KeyOf(env, events, i) == Some(key) ::
      events[i].request.timestamp == timestamp && 0 <= events[i].clock.skew <= events[i].clock.stamp
  }

  /** Every second write of this nonce belongs to an earlier failure. */
  ghost predicate Caused(env: Env, events: seq<Event>, key: NonceKey) {
    forall k | 0 <= k < |events| && events[k].KeepNonce? && events[k].spent.key == key ::
      exists i :: 0 <= i && KeepsEarlier(env, events, k, i)
  }

  predicate Lasting(nonces: map<NonceKey, Time>, key: NonceKey, deadline: Time) {
    key in nonces ==> deadline <= nonces[key]
  }

  lemma StepLasts(env: Env, st: State, ev: Event, key: NonceKey, deadline: Time)
    requires Lasting(st.nonces, key, deadline)
    requires (ev.Request? && Step(env, st, ev).answer.Ok? && GrantOf(env, st, ev).Ok?
              && key == NonceKey(GrantOf(env, st, ev).value.scope, ev.request.nonce))
             ==> deadline <= Expiry(ev.clock)
    requires ev.KeepNonce? && ev.spent.key == key ==> deadline <= ev.spent.expires
    ensures Lasting(Step(env, st, ev).state.nonces, key, deadline)
    ensures ev.KeepNonce? && ev.spent.key == key ==> key in Step(env, st, ev).state.nonces
  {
    if ev.Request? {
      hide Step;
      if Step(env, st, ev).answer.Ok? {
        AcceptedNonces(env, st, ev);
      } else {
        RefusedNonces(env, st, ev);
      }
    }
  }

  /** Whatever event k records for the nonce lasts until the deadline. */
  lemma EventRecordsLong(env: Env, events: seq<Event>, k: nat, key: NonceKey, timestamp: nat)
    requires Caused(env, events, key) && OnlyRetries(env, events, key, timestamp) && k < |events|
    ensures Accepted(env, events, k) && KeyOf(env, events, k) == Some(key) ==>
            Deadline(timestamp) <= Expiry(events[k].clock)
    ensures events[k].KeepNonce? && events[k].spent.key == key ==> Deadline(timestamp) <= events[k].spent.expires
  {
    hide Step, Run;
    if Accepted(env, events, k) && KeyOf(env, events, k) == Some(key) {
      AcceptedNonces(env, Run(env, events[..k]), events[k]);
      DeadlineIsBetween(timestamp, events[k].clock);
    } else if events[k].KeepNonce? && events[k].spent.key == key {
      var i :| 0 <= i && KeepsEarlier(env, events, k, i);
      SpentTime(env, Run(env, events[..i]), events[i]);
      RefusedNonces(env, Run(env, events[..i]), events[i]);
      DeadlineIsBetween(timestamp, events[i].clock);
    }
  }

  lemma {:induction false} EveryRecordLasts(env: Env, events: seq<Event>, k: nat, key: NonceKey, timestamp: nat)
    requires Caused(env, events, key) && OnlyRetries(env, events, key, timestamp) && k <= |events|
    ensures Lasting(Run(env, events[..k]).nonces, key, Deadline(timestamp))
    ensures k > 0 && events[k - 1].KeepNonce? && events[k - 1].spent.key == key ==> key in Run(env, events[..k]).nonces
    decreases k
  {
    if k > 0 {
      hide Step, Run, Caused, OnlyRetries, Lasting, GrantOf;
      EveryRecordLasts(env, events, k - 1, key, timestamp);
      EventRecordsLong(env, events, k - 1, key, timestamp);
      StepLasts(env, Run(env, events[..k - 1]), events[k - 1], key, Deadline(timestamp));
      RunSnoc(env, events, k - 1);
    }
  }

  /** However the second writes of several failures cross: if the nonce was only ever used to retry one request, that
      request is refused for good from the first second write on. */
  lemma RetriesStaySpent(env: Env, events: seq<Event>, k: nat, j: nat, key: NonceKey, timestamp: nat)
    requires Caused(env, events, key) && OnlyRetries(env, events, key, timestamp)
    requires k < j < |events| && events[k].KeepNonce? && events[k].spent.key == key
    requires forall m | k < m < j :: LeavesRecord(env, events, m, key, Deadline(timestamp))
    requires events[j].Request? && KeyOf(env, events, j) == Some(key) && Prompt(events[j].clock)
    ensures !Accepted(env, events, j)
  {
    hide Run, Step, Caused, Passes, LeavesRecord;
    if Accepted(env, events, j) {
      AcceptedPasses(env, events, j);
      assert events[j].request.timestamp == timestamp;
      DeadlineIsBetween(timestamp, events[j].clock);
      EveryRecordLasts(env, events, k + 1, key, timestamp);
      HeldUntil(env, events, k + 1, j, key, Deadline(timestamp));
      HeldIsRefused(env, events, j, key, Deadline(timestamp));
    }
  }

  // ---------------------------------------------------------------------------------------------
  // Exactly when a record refuses a request for good

  /** The request is authorised in this state whatever the clock reads, and is properly signed. */
  ghost predicate Usable(env: Env, st: State, ev: Event) {
    && ev.Request? && GrantOf(env, st, ev).Ok?
    && (forall clock :: GrantOf(env, st, ev.(clock := clock)) == GrantOf(env, st, ev))
    && RequestSigned(env.crypto, GrantOf(env, st, ev).value.key, ev.caller, ev.request, ev.request.timestamp)
  }

  /** A later prompt use of the scope and nonce, after anything that leaves its records in place until the request's
      deadline. */
  ghost predicate LaterUse(env: Env, events: seq<Event>, more: seq<Event>, ev: Event, key: NonceKey) {
    var all := events + more + [ev];
    && ev.Request? && Prompt(ev.clock)
    && KeyOf(env, all, |events + more|) == Some(key)
    && (forall m | |events| <= m < |events + more| ::
          LeavesRecord(env, all, m, key, Deadline(ev.request.timestamp)))
  }

  predicate OverBy(events: seq<Event>, moment: Time) {
    forall i | 0 <= i < |events| && Ended(events[i]).Some? :: Ended(events[i]).value <= moment
  }

  lemma LaterUseIsRefused(env: Env, events: seq<Event>, more: seq<Event>, ev: Event, key: NonceKey)
    requires LaterUse(env, events, more, ev, key)
    requires key in Run(env, events).nonces && Deadline(ev.request.timestamp) <= Run(env, events).nonces[key]
    ensures !Passes(env, Run(env, events + more), ev)
  {
    hide Run, KeyOf, Authorise, LeavesRecord;
    var all, j := events + more + [ev], |events + more|;
    if Passes(env, Run(env, events + more), ev) {
      DeadlineIsBetween(ev.request.timestamp, ev.clock);
      hide Passes;
      assert all[..|events|] == events && all[..j] == events + more && all[j] == ev;
      HeldUntil(env, all, |events|, j, key, Deadline(ev.request.timestamp));
      HeldIsRefused(env, all, j, key, Deadline(ev.request.timestamp));
    }
  }

  /** The last moment the request passes the skew check, with the longest prompt delay. */
  function LastClock(timestamp: nat): Clock {
    var late := (timestamp + REQUEST_SKEW + 1) * SECOND - 1;
    Clock(late, late, late, late + SLACK, late + SLACK)
  }

  lemma LastClockFacts(timestamp: nat)
    ensures var clock := LastClock(timestamp);
            && Prompt(clock) && clock.Ordered() && WithinSkew(timestamp, Unix(clock.skew))
            && clock.record == Deadline(timestamp) - 1
  {
    assert Unix(LastClock(timestamp).skew) == timestamp + REQUEST_SKEW;
  }

  /** One more request on the same clock. */
  lemma ChronologicalSnoc(env: Env, events: seq<Event>, ev: Event)
    requires Chronological(env, events) && ev.Request? && ev.clock.Ordered() && OverBy(events, ev.clock.lookup)
    ensures Chronological(env, events + [ev])
  {
    hide Step, Run;
    var all := events + [ev];
    forall k | 0 <= k < |all| && all[k].KeepNonce?
      ensures exists i :: 0 <= i && KeepsEarlier(env, all, k, i)
    {
      var i :| 0 <= i && KeepsEarlier(env, events, k, i);
      assert all[..i] == events[..i] && all[i] == events[i];
      assert KeepsEarlier(env, all, k, i);
    }
  }

  lemma LateUsePasses(env: Env, st: State, ev: Event, key: NonceKey)
    requires Usable(env, st, ev) && key == NonceKey(GrantOf(env, st, ev).value.scope, ev.request.nonce)
    requires key in st.nonces && st.nonces[key] < Deadline(ev.request.timestamp)
    ensures Passes(env, st, ev.(clock := LastClock(ev.request.timestamp)))
  {
    hide Authorise, LastClock, Deadline;
    LastClockFacts(ev.request.timestamp);
    assert GrantOf(env, st, ev.(clock := LastClock(ev.request.timestamp))) == GrantOf(env, st, ev);
  }

  /** The record of a nonce refuses a signed request, against every continuation that leaves it in place and every
      prompt later use, if and only if it reaches the request's deadline. If it does not, the use at the last moment
      passes, and it keeps a run in order that was in order and over by then. */
  lemma RefusedForGoodIff(env: Env, events: seq<Event>, ev: Event, key: NonceKey)
    requires Usable(env, Run(env, events), ev)
    requires key == NonceKey(GrantOf(env, Run(env, events), ev).value.scope, ev.request.nonce)
    requires key in Run(env, events).nonces
    ensures Deadline(ev.request.timestamp) <= Run(env, events).nonces[key] <==>
            forall more, use | LaterUse(env, events, more, use, key) && use.request.timestamp == ev.request.timestamp ::
              !Passes(env, Run(env, events + more), use)
    ensures Run(env, events).nonces[key] < Deadline(ev.request.timestamp) ==>
              var use := ev.(clock := LastClock(ev.request.timestamp));
              && LaterUse(env, events, [], use, key) && Passes(env, Run(env, events), use)
              && (Chronological(env, events) && OverBy(events, use.clock.lookup) ==>
                    Chronological(env, events + [use]))
  {
    hide Run, Chronological, Passes, GrantOf, LastClock, Deadline, Prompt, KeyOf, RequestSigned;
    if Deadline(ev.request.timestamp) <= Run(env, events).nonces[key] {
      forall more, use | LaterUse(env, events, more, use, key) && use.request.timestamp == ev.request.timestamp
        ensures !Passes(env, Run(env, events + more), use)
      {
        LaterUseIsRefused(env, events, more, use, key);
      }
    } else {
      var use := LateUse(env, events, ev, key);
      LateUsePasses(env, Run(env, events), ev, key);
      assert events + [] == events;
      assert Passes(env, Run(env, events + []), use);
    }
  }

  /** The use at the last moment is a possible continuation of the run. */
  lemma LateUse(env: Env, events: seq<Event>, ev: Event, key: NonceKey) returns (use: Event)
    requires Usable(env, Run(env, events), ev)
    requires key == NonceKey(GrantOf(env, Run(env, events), ev).value.scope, ev.request.nonce)
    ensures use == ev.(clock := LastClock(ev.request.timestamp)) && LaterUse(env, events, [], use, key)
    ensures Chronological(env, events) && OverBy(events, use.clock.lookup) ==> Chronological(env, events + [use])
  {
    hide Run, Step, Chronological, LastClock, Authorise;
    use := ev.(clock := LastClock(ev.request.timestamp));
    LastClockFacts(ev.request.timestamp);
    if Chronological(env, events) && OverBy(events, use.clock.lookup) {
      ChronologicalSnoc(env, events, use);
    }
    var all := events + [] + [use];
    assert all == events + [use] && all[..|events|] == events && |events + []| == |events|;
    assert GrantOf(env, Run(env, events), use) == GrantOf(env, Run(env, events), ev);
  }
}
