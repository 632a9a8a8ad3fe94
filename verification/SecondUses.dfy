/** Runs in which one signed request is accepted twice: exactly when the record of its nonce has run out, or was purged,
    before the second use is recorded. */
module SecondUses {
  import opened Basics
  import opened Records
  import opened Tables
  import opened Operations
  import opened ServiceRuns
  import opened ReplaySafety
  import opened CrossedWrites
  import D = DeviceLog

  /** One signed vault creation, used at two times with the vault reset and a purge in between. */
  datatype Uses = Uses(env: Env, caller: Caller, q: SignedRequest, e: Entry, first: Clock, purge: Time, second: Clock) {
    predicate Set() {
      && caller.Known() && D.Replay(env.crypto, [e]).Ok?
      && RequestSigned(env.crypto, e.signingKey, caller, q, q.timestamp)
      && WithinSkew(q.timestamp, Unix(first.skew)) && WithinSkew(q.timestamp, Unix(second.skew))
    }

    function Key(): NonceKey {
      NonceKey(OWNER_SCOPE + caller.owner, q.nonce)
    }

    function Events(): seq<Event> {
      [Request(caller, q, CreateVault(e), first), AdminReset(caller.owner), Maintain(purge),
       Request(caller, q, CreateVault(e), second)]
    }
  }

  /** A creation by a known caller without a vault is authorised in the owner's scope. */
  lemma CreationGrant(env: Env, st: State, caller: Caller, q: SignedRequest, e: Entry, clock: Clock)
    requires caller.Known() && caller.owner !in st.vaults && D.Replay(env.crypto, [e]).Ok?
    ensures
      var grant := GrantOf(env, st, Request(caller, q, CreateVault(e), clock));
      grant.Ok? && grant.value.scope == OWNER_SCOPE + caller.owner
  {
    hide D.Replay;
  }

  /** The states before the second use. */
  lemma StatesBetween(u: Uses)
    requires u.Set()
    ensures Accepted(u.env, u.Events(), 0) && KeyOf(u.env, u.Events(), 0) == Some(u.Key())
    ensures Run(u.env, u.Events()[..3]) == State(map[], PurgeNonces(map[u.Key() := Expiry(u.first)], u.purge))
  {
    hide Run, RequestSigned, D.Replay, Submit, WithinSkew, Expiry, PurgeNonces;
    var env, events := u.env, u.Events();
    EmptyRun(env, events);
    RunSnoc(env, events, 0);
    RunSnoc(env, events, 1);
    RunSnoc(env, events, 2);
    SignedWithin(env.crypto, u.e.signingKey, u.caller, u.q, Unix(u.first.skew));
    CreateStep(env, EMPTY, u.caller, u.q, u.e, u.first);
    var recorded := map[u.Key() := Expiry(u.first)];
    assert Run(env, events[..1]) == State(map[u.caller.owner := NewVault(u.caller, u.e)], recorded);
    assert Run(env, events[..2]) == State(map[], recorded);
  }

  /** The first use is accepted, and the second is too if and only if the record ended by the time the second one was
      recorded or by the time the purge read. */
  lemma SecondUseIff(u: Uses)
    requires u.Set()
    ensures Accepted(u.env, u.Events(), 0)
    ensures KeyOf(u.env, u.Events(), 0) == KeyOf(u.env, u.Events(), 3) == Some(u.Key())
    ensures Accepted(u.env, u.Events(), 3) <==> (Expiry(u.first) <= u.second.record || Expiry(u.first) <= u.purge)
  {
    hide Run, Step, RequestSigned, D.Replay, GrantOf, WithinSkew, Expiry, Passes;
    var env, events := u.env, u.Events();
    StatesBetween(u);
    var st := Run(env, events[..3]);
    CreationGrant(env, st, u.caller, u.q, u.e, u.second);
    if Expiry(u.first) <= u.second.record || Expiry(u.first) <= u.purge {
      SignedWithin(env.crypto, u.e.signingKey, u.caller, u.q, Unix(u.second.skew));
      CreateStep(env, st, u.caller, u.q, u.e, u.second);
    } else {
      HeldIsRefused(env, events, 3, u.Key(), Expiry(u.first));
      if Accepted(env, events, 3) {
        AcceptedPasses(env, events, 3);
        assert false;
      }
    }
  }

  // ---------------------------------------------------------------------------------------------
  // How long a second use may take

  /** Events i and j use one signed request in one scope, after 1970 and on one clock, the second recording at most
      `stall` after its skew check, and both are accepted. */
  ghost predicate AcceptedTwice(env: Env, events: seq<Event>, i: nat, j: nat, stall: Time) {
    && Chronological(env, events) && i < j < |events|
    && Accepted(env, events, i) && Accepted(env, events, j)
    && events[i].request == events[j].request
    && KeyOf(env, events, i).Some? && KeyOf(env, events, j) == KeyOf(env, events, i)
    && 0 <= events[i].clock.skew && events[j].clock.record <= events[j].clock.skew + stall
  }

  function SlowUses(env: Env, caller: Caller, q: SignedRequest, e: Entry, delay: Time): Uses
    requires 300 <= q.timestamp
  {
    var start, late := (q.timestamp - 300) * SECOND, (q.timestamp + 301) * SECOND - 1;
    Uses(env, caller, q, e, At(start), start, Stalled(late, late + delay))
  }

  /** Every signed creation is accepted twice by a run whose second use takes longer than 59 seconds. */
  lemma SlowUseIsAccepted(env: Env, caller: Caller, q: SignedRequest, e: Entry, delay: Time)
    requires caller.Known() && D.Replay(env.crypto, [e]).Ok? && 300 <= q.timestamp
    requires RequestSigned(env.crypto, e.signingKey, caller, q, q.timestamp)
    requires SLACK < delay
    ensures AcceptedTwice(env, SlowUses(env, caller, q, e, delay).Events(), 0, 3, delay)
  {
    hide Run, Step, RequestSigned, D.Replay, KeyOf;
    var u := SlowUses(env, caller, q, e, delay);
    assert Unix(u.first.skew) == q.timestamp - 300;
    assert Unix(u.second.skew) == q.timestamp + 300;
    SecondUseIff(u);
  }

  /** Over all environments and all runs: a request can be accepted twice if and only if its second use may take longer
      than 59 seconds from its skew check to its record. */
  lemma AcceptedTwiceIff(stall: Time)
    ensures SLACK < stall <==> exists env: Env, events, i, j :: env.Valid() && AcceptedTwice(env, events, i, j, stall)
  {
    if SLACK < stall {
      var env := Env(Trusting(), 1, 1);
      var a := Repeat(65, 16);
      var q := SignedRequest([], [], [], 300, a, Repeat(65, 64));
      CreationVerifies(a);
      hide AcceptedTwice, D.Replay, Repeat, SlowUses, Creation, Uses.Events;
      SlowUseIsAccepted(env, Caller(a, a, a), q, Creation(a), stall);
    } else {
      forall env, events, i, j
        ensures !AcceptedTwice(env, events, i, j, stall)
      {
        TwiceIsSlow(env, events, i, j, stall);
      }
    }
  }

  lemma TwiceIsSlow(env: Env, events: seq<Event>, i: nat, j: nat, stall: Time)
    requires stall <= SLACK
    ensures !AcceptedTwice(env, events, i, j, stall)
  {
    hide Run, Step, Chronological, KeyOf, Accepted;
    if AcceptedTwice(env, events, i, j, stall) {
      RequestOf(env, events, i);
      RequestOf(env, events, j);
      AtMostOnceInOrder(env, events, i, j);
    }
  }

  lemma RequestOf(env: Env, events: seq<Event>, i: nat)
    requires Accepted(env, events, i)
    ensures i < |events| && events[i].Request?
  {
    hide Run, Step;
  }
}
