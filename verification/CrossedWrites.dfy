/** A run in which the second writes of two failures cross, and a request that failed is accepted later. */
module CrossedWrites {
  import opened Basics
  import opened Records
  import opened Tables
  import opened Operations
  import opened ServiceRuns
  import opened ReplaySafety
  import opened SpentNonces
  import D = DeviceLog

  /** Event i fails and leaves its nonce to be written, event k writes it, and event j, the same request again, is
      accepted. Every request of the run is prompt. */
  ghost predicate Reopened(env: Env, events: seq<Event>, i: nat, k: nat, j: nat, spent: Spent) {
    && Chronological(env, events) && i < k < j < |events|
    && (forall n | 0 <= n < |events| && events[n].Request? :: Prompt(events[n].clock))
    && events[i].Request? && Step(env, Run(env, events[..i]), events[i]).spent == Some(spent)
    && events[k] == KeepNonce(spent)
    && events[j].Request? && events[j].request == events[i].request && KeyOf(env, events, j) == Some(spent.key)
    && Accepted(env, events, j)
  }

  /** Two owners try to create a vault under one id. The second one's client uses a nonce twice, with two timestamps. */
  datatype Scene = Scene(env: Env, first: Caller, second: Caller, mine: Entry, theirs: Entry, q: SignedRequest,
                         p: SignedRequest, r: SignedRequest) {
    ghost predicate Set() {
      && first.Known() && second.Known() && first.owner != second.owner
      && mine.vaultId == theirs.vaultId
      && D.Replay(env.crypto, [mine]).Ok? && D.Replay(env.crypto, [theirs]).Ok?
      && RequestSigned(env.crypto, mine.signingKey, first, q, 990) && q.timestamp == 990
      && RequestSigned(env.crypto, theirs.signingKey, second, p, 1000) && p.timestamp == 1000
      && RequestSigned(env.crypto, theirs.signingKey, second, r, 1304) && r.timestamp == 1304
      && p.nonce == r.nonce
    }

    function Key(): NonceKey {
      NonceKey(OWNER_SCOPE + second.owner, r.nonce)
    }

    /** What the two failures leave to be written, four seconds apart. */
    function Early(): Spent {
      Spent(Key(), 1000 * SECOND, 1660 * SECOND)
    }

    function Late(): Spent {
      Spent(Key(), 1004 * SECOND, 1664 * SECOND)
    }

    function Events(): seq<Event> {
      [Request(first, q, CreateVault(mine), At(990 * SECOND)),
       Request(second, p, CreateVault(theirs), At(1000 * SECOND)),
       Request(second, r, CreateVault(theirs), At(1004 * SECOND)),
       KeepNonce(Early()),
       KeepNonce(Late()),
       AdminReset(first.owner),
       Request(second, r, CreateVault(theirs), Stalled(1604 * SECOND, 1660 * SECOND))]
    }
  }

  function At(t: Time): Clock {
    Clock(t, t, t, t, t)
  }

  function Stalled(begun: Time, recorded: Time): Clock {
    Clock(begun, begun, begun, recorded, recorded)
  }

  /** A creation whose owner has no vault: accepted or in conflict, by the vault id. */
  lemma CreateStep(env: Env, st: State, caller: Caller, q: SignedRequest, e: Entry, clock: Clock)
    requires caller.Known() && caller.owner !in st.vaults && D.Replay(env.crypto, [e]).Ok?
    requires RequestSigned(env.crypto, e.signingKey, caller, q, Unix(clock.skew))
    requires NonceKey(OWNER_SCOPE + caller.owner, q.nonce) in st.nonces ==>
               st.nonces[NonceKey(OWNER_SCOPE + caller.owner, q.nonce)] <= clock.record
    ensures
      var key := NonceKey(OWNER_SCOPE + caller.owner, q.nonce);
      var out := Step(env, st, Request(caller, q, CreateVault(e), clock));
      && GrantOf(env, st, Request(caller, q, CreateVault(e), clock)).Ok?
      && GrantOf(env, st, Request(caller, q, CreateVault(e), clock)).value.scope == OWNER_SCOPE + caller.owner
      && if exists o | o in st.vaults :: st.vaults[o].id == e.vaultId then
           out.state == st && out.spent == Some(Spent(key, clock.record, Expiry(clock)))
         else
           && out.answer.Ok? && out.spent.None?
           && out.state == State(st.vaults[caller.owner := NewVault(caller, e)], st.nonces[key := Expiry(clock)])
  {
    hide RequestSigned, D.Replay;
  }

  /** A signature that holds for a request holds for it at every time within the skew. */
  lemma SignedWithin(c: Crypto, key: Text, caller: Caller, q: SignedRequest, now: nat)
    requires RequestSigned(c, key, caller, q, q.timestamp) && WithinSkew(q.timestamp, now)
    ensures RequestSigned(c, key, caller, q, now)
  {
  }

  /** The states of the run up to the fourth event. */
  lemma FirstStates(s: Scene)
    requires s.Set()
    ensures
      var taken := map[s.first.owner := NewVault(s.first, s.mine)];
      var begun := map[NonceKey(OWNER_SCOPE + s.first.owner, s.q.nonce) := 1650 * SECOND];
      && Run(s.env, s.Events()[..1]) == State(taken, begun)
      && Run(s.env, s.Events()[..2]) == State(taken, begun)
      && Run(s.env, s.Events()[..3]) == State(taken, begun)
      && Step(s.env, State(taken, begun), s.Events()[1]).spent == Some(s.Early())
      && Step(s.env, State(taken, begun), s.Events()[2]).spent == Some(s.Late())
  {
    hide Run, Step, RequestSigned, D.Replay;
    var env, events := s.env, s.Events();
    assert Run(env, events[..0]) == EMPTY by { EmptyRun(env, events); }
    RunSnoc(env, events, 0);
    RunSnoc(env, events, 1);
    RunSnoc(env, events, 2);
    CreateStep(env, EMPTY, s.first, s.q, s.mine, At(990 * SECOND));
    var st := Run(env, events[..1]);
    OwnersApart(s.first.owner, s.second.owner);
    assert st.vaults[s.first.owner].id == s.theirs.vaultId;
    CreateStep(env, st, s.second, s.p, s.theirs, At(1000 * SECOND));
    SignedWithin(env.crypto, s.theirs.signingKey, s.second, s.r, 1004);
    CreateStep(env, st, s.second, s.r, s.theirs, At(1004 * SECOND));
  }

  lemma EmptyRun(env: Env, events: seq<Event>)
    ensures Run(env, events[..0]) == EMPTY
  {
  }

  lemma OwnersApart(a: Text, b: Text)
    requires a != b
    ensures OWNER_SCOPE + a != OWNER_SCOPE + b
  {
    assert (OWNER_SCOPE + a)[|OWNER_SCOPE|..] == a && (OWNER_SCOPE + b)[|OWNER_SCOPE|..] == b;
  }

  /** The second write of the earlier failure lands first and stays; 656 seconds after the later failure its request
      passes again. */
  lemma LastStates(s: Scene)
    requires s.Set()
    ensures
      var st := Run(s.env, s.Events()[..6]);
      && st.vaults == map[] && s.Key() in st.nonces && st.nonces[s.Key()] == 1660 * SECOND
      && Step(s.env, st, s.Events()[6]).answer.Ok?
      && GrantOf(s.env, st, s.Events()[6]).Ok? && GrantOf(s.env, st, s.Events()[6]).value.scope == s.Key().scope
  {
    hide Run, RequestSigned, D.Replay, Submit;
    var env, events := s.env, s.Events();
    FirstStates(s);
    OwnersApart(s.first.owner, s.second.owner);
    RunSnoc(env, events, 3);
    RunSnoc(env, events, 4);
    RunSnoc(env, events, 5);
    var st := Run(env, events[..6]);
    assert st.vaults == map[];
    SignedWithin(env.crypto, s.theirs.signingKey, s.second, s.r, 1604);
    CreateStep(env, st, s.second, s.r, s.theirs, events[6].clock);
  }

  /** Every such scene ends with the failed request accepted, all within the five seconds a second write may take and
      with every request prompt. */
  lemma CrossedWritesReopen(s: Scene)
    requires s.Set()
    ensures Reopened(s.env, s.Events(), 2, 4, 6, s.Late())
  {
    hide Run, Step, RequestSigned, D.Replay, GrantOf;
    var env, events := s.env, s.Events();
    FirstStates(s);
    LastStates(s);
    assert KeepsEarlier(env, events, 3, 1);
    assert KeepsEarlier(env, events, 4, 2);
  }

  // ---------------------------------------------------------------------------------------------
  // Such scenes exist

  function Repeat(b: Byte, n: nat): (t: seq<Byte>)
    ensures |t| == n && forall i | 0 <= i < n :: t[i] == b
  {
    if n == 0 then [] else Repeat(b, n - 1) + [b]
  }

  /** A cryptography that accepts every signature; texts are their own bytes. */
  function Trusting(): Crypto {
    Crypto(_ => Repeat(65, 32), (_, _, _) => true, _ => Repeat(0, 32), (t: Text) => Some(t))
  }

  function Creation(subject: Text): Entry {
    Entry(Repeat(65, 16), 1, [], D.CREATE, subject, subject, Repeat(65, 32), Repeat(65, 32), Repeat(65, 40), 1, 0,
          Repeat(65, 64))
  }

  lemma CreationVerifies(subject: Text)
    requires D.OpaqueId(subject)
    ensures D.Replay(Trusting(), [Creation(subject)]).Ok?
  {
    hide Repeat;
    D.KindsDiffer();
    var e := Creation(subject);
    assert D.ValidEntry(Trusting(), e);
    assert D.Extend(Trusting(), D.NEW_LIST, e).Ok?;
    hide D.Extend;
    assert [e][..0] == [];
  }

  function Example(): Scene {
    var a, b, signature := Repeat(65, 16), Repeat(66, 16), Repeat(65, 64);
    Scene(
      Env(Trusting(), 1, 1), Caller(a, a, a), Caller(b, b, b), Creation(a), Creation(b),
      SignedRequest([], [], [], 990, a, signature),
      SignedRequest([], [], [], 1000, b, signature),
      SignedRequest([], [], [], 1304, b, signature))
  }

  lemma ExampleIsSet()
    ensures Example().Set()
  {
    hide Repeat, D.Replay;
    CreationVerifies(Repeat(65, 16));
    CreationVerifies(Repeat(66, 16));
    assert Repeat(65, 16)[0] != Repeat(66, 16)[0];
  }

  /** There is a run in which a request that failed, and whose nonce was written again, is accepted later. */
  lemma ReopeningHappens()
    ensures exists env, events, spent :: Reopened(env, events, 2, 4, 6, spent)
  {
    hide Reopened, Example, Scene.Set, Scene.Events, Scene.Late;
    ExampleIsSet();
    CrossedWritesReopen(Example());
  }
}
