/** What the signature of an accepted request covers: all six of its fields, the sums of body and bearer token among
    them. */
module RequestSignatures {
  import opened Basics
  import opened Records
  import opened Tables
  import opened Operations
  import opened ServiceRuns
  import opened ReplaySafety

  /** The six fields a client signs. */
  function FieldsOf(c: Crypto, caller: Caller, q: SignedRequest): RequestFields {
    RequestFields(q.verb, q.target, c.sha256(q.body), c.sha256(caller.bearer), q.timestamp, q.nonce)
  }

  /** Signed over its own six fields, at most five minutes off, with a nonce of sixteen bytes. */
  predicate ProperlySigned(c: Crypto, key: Text, caller: Caller, q: SignedRequest, now: nat) {
    && c.SignatureHolds(key, RequestSigning(FieldsOf(c, caller, q)), q.signature)
    && now - 300 <= q.timestamp <= now + 300
    && c.Decodes(q.nonce, 16)
  }

  lemma SignedIsProper(c: Crypto, key: Text, caller: Caller, q: SignedRequest, now: nat)
    ensures RequestSigned(c, key, caller, q, now) <==> ProperlySigned(c, key, caller, q, now)
  {
  }

  /** No record of the nonce is in force when the request records it. */
  predicate Unused(nonces: map<NonceKey, Time>, scope: seq<Byte>, q: SignedRequest, clock: Clock) {
    var key := NonceKey(scope, q.nonce);
    key in nonces ==> nonces[key] <= clock.record
  }

  /** A request that is authorised passes if and only if it is properly signed and its nonce is unused. */
  lemma PassesIff(env: Env, st: State, ev: Event)
    requires ev.Request? && GrantOf(env, st, ev).Ok?
    ensures
      var grant := GrantOf(env, st, ev).value;
      Passes(env, st, ev) <==>
      && ProperlySigned(env.crypto, grant.key, ev.caller, ev.request, Unix(ev.clock.skew))
      && Unused(st.nonces, grant.scope, ev.request, ev.clock)
  {
    hide Authorise, RequestSigned, ProperlySigned;
    SignedIsProper(env.crypto, GrantOf(env, st, ev).value.key, ev.caller, ev.request, Unix(ev.clock.skew));
  }

  /** The key vouches only for payloads of the set. */
  ghost predicate SignsOnly(c: Crypto, key: Text, signed: iset<Payload>) {
    forall p, signature | c.SignatureHolds(key, p, signature) :: p in signed
  }

  /** Over every run: if the key a request is checked against only ever signed the payloads of a set, the request is
      accepted only if its own verb, target, body sum, bearer sum, timestamp and nonce were signed together, at most
      five minutes off. */
  lemma AcceptedWasSigned(env: Env, events: seq<Event>, i: nat, signed: iset<Payload>)
    requires Accepted(env, events, i)
    requires
      var grant := GrantOf(env, Run(env, events[..i]), events[i]);
      grant.Ok? ==> SignsOnly(env.crypto, grant.value.key, signed)
    ensures
      var ev := events[i];
      && RequestSigning(FieldsOf(env.crypto, ev.caller, ev.request)) in signed
      && Unix(ev.clock.skew) - 300 <= ev.request.timestamp <= Unix(ev.clock.skew) + 300
  {
    hide Run, Step, GrantOf;
    var st, ev := Run(env, events[..i]), events[i];
    AcceptedNonces(env, st, ev);
    AcceptedPasses(env, events, i);
    hide Passes;
    PassesIff(env, st, ev);
  }

  /** The raw key vouches only for the bytes of payloads of the set. */
  ghost predicate SignsOnlyBytes(b: Primitives, key: seq<Byte>, signed: iset<Payload>) {
    forall message, signature | b.verify(key, message, signature) :: exists p :: p in signed && message == Encode(p)
  }

  /** The same over the bytes: no other record the key signed, of whatever kind, passes for the request. */
  lemma AcceptedBytesWereSigned(b: Primitives, env: Env, events: seq<Event>, i: nat, signed: iset<Payload>)
    requires env.crypto == OverBytes(b) && Accepted(env, events, i)
    requires
      var grant := GrantOf(env, Run(env, events[..i]), events[i]);
      grant.Ok? && b.decode(grant.value.key).Some? ==> SignsOnlyBytes(b, b.decode(grant.value.key).value, signed)
    ensures RequestSigning(FieldsOf(env.crypto, events[i].caller, events[i].request)) in signed
  {
    hide Run, Step, GrantOf, Encode;
    var st, ev := Run(env, events[..i]), events[i];
    AcceptedNonces(env, st, ev);
    AcceptedPasses(env, events, i);
    hide Passes;
    PassesIff(env, st, ev);
    var key := b.decode(GrantOf(env, st, ev).value.key).value;
    var own := RequestSigning(FieldsOf(env.crypto, ev.caller, ev.request));
    assert b.verify(key, Encode(own), b.decode(ev.request.signature).value);
    var p :| p in signed && Encode(own) == Encode(p);
    PayloadsInjective(own, p);
  }
}
