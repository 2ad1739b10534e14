/**
The pairing handshake: CPace over a group of prime order, and the registry of
exchanges in flight.

The hashes are symbolic: the key and the confirmation tag are the terms that name
the hashed input. Random identifiers and secrets, and the clock, are arguments.
*/
module Handshake {
  import opened Common
  import opened Framing
  import opened Group

  /** The group as the program sees it: encoded elements and the map from hashed
  bytes to a generator. */
  datatype Suite = Suite(q: nat, generatorOf: Bytes -> nat, encode: nat -> Bytes, decode: Bytes -> Option<nat>)

  /** The order is prime, and an element has exactly one accepted encoding. */
  ghost predicate Ideal(suite: Suite) {
    && Prime(suite.q)
    && (forall x :: suite.generatorOf(x) < suite.q)
    && (forall e :: 0 <= e < suite.q ==> suite.decode(suite.encode(e)) == Some(e))
    && (forall b :: suite.decode(b).Some? ==>
          suite.decode(b).value < suite.q && suite.encode(suite.decode(b).value) == b)
  }

  /** The first half of the hash of `input`. */
  datatype Key = Key(input: Bytes)

  /** The tag over the second half of the hash of `input`, or any other bytes. */
  datatype Tag = Confirm(input: Bytes) | Other(bytes: Bytes)

  datatype Derived = Derived(key: Key, proof: Tag)

  // --------------------------------------------------------------- agreement

  function Generator(suite: Suite, code: Bytes, host: Bytes, sid: Bytes): nat {
    suite.generatorOf(GeneratorString(code, host, sid))
  }

  function Message(suite: Suite, secret: nat, code: Bytes, host: Bytes, sid: Bytes): Bytes
    requires suite.q > 0
  {
    suite.encode(ScalarMult(suite.q, secret, Generator(suite, code, host, sid)))
  }

  function ScalarMultVfy(suite: Suite, secret: nat, peer: Bytes): Option<Bytes>
    requires suite.q > 0
  {
    match suite.decode(peer)
    case None => None
    case Some(element) =>
      var product := ScalarMult(suite.q, secret, element);
      if product == 0 then None else Some(suite.encode(product))
  }

  function Complete(suite: Suite, secret: nat, peer: Bytes, sid: Bytes,
                    clientMessage: Bytes, serverMessage: Bytes, id: Bytes): Option<Derived>
    requires suite.q > 0
  {
    match ScalarMultVfy(suite, secret, peer)
    case None => None
    case Some(shared) =>
      var input := IskInput(sid, shared, clientMessage, [], serverMessage, id);
      Some(Derived(Key(input), Confirm(input)))
  }

  function ClientComplete(suite: Suite, secret: nat, sid: Bytes,
                          clientMessage: Bytes, serverMessage: Bytes, id: Bytes): Option<Derived>
    requires suite.q > 0
  {
    Complete(suite, secret, serverMessage, sid, clientMessage, serverMessage, id)
  }

  function HostComplete(suite: Suite, secret: nat, sid: Bytes,
                        clientMessage: Bytes, serverMessage: Bytes, id: Bytes): Option<Derived>
    requires suite.q > 0
  {
    Complete(suite, secret, clientMessage, sid, clientMessage, serverMessage, id)
  }

  /** A received message is refused exactly when it is no encoding of an element,
  it encodes the identity, or the secret is zero. */
  lemma RefusedExactlyWhen(suite: Suite, secret: nat, peer: Bytes)
    requires Ideal(suite) && secret < suite.q
    ensures ScalarMultVfy(suite, secret, peer).None?
            <==> suite.decode(peer).None? || suite.decode(peer) == Some(0) || secret == 0
  {
    match suite.decode(peer)
    case None =>
    case Some(element) => NoZeroDivisors(suite.q, secret, element);
  }

  /** Equal encodings are encodings of equal elements. */
  lemma EncodingIsInjective(suite: Suite, x: nat, y: nat)
    requires Ideal(suite) && x < suite.q && y < suite.q && suite.encode(x) == suite.encode(y)
    ensures x == y
  {
    assert suite.decode(suite.encode(x)) == Some(x);
  }

  /** Any two completed exchanges have the same key exactly when they agree on the
  shared point and on every part of the transcript; the tags tell them apart as
  well as the keys do. */
  lemma TranscriptIsBound(suite: Suite, secret: nat, peer: Bytes, sid: Bytes, ya: Bytes, yb: Bytes, id: Bytes,
                          secret': nat, peer': Bytes, sid': Bytes, ya': Bytes, yb': Bytes, id': Bytes)
    requires suite.q > 0
    requires ScalarMultVfy(suite, secret, peer).Some? && ScalarMultVfy(suite, secret', peer').Some?
    ensures var a := Complete(suite, secret, peer, sid, ya, yb, id).value;
            var b := Complete(suite, secret', peer', sid', ya', yb', id').value;
            && (a.key == b.key <==> a.proof == b.proof)
            && (a.key == b.key <==>
                  sid == sid' && ya == ya' && yb == yb' && id == id'
                  && ScalarMultVfy(suite, secret, peer) == ScalarMultVfy(suite, secret', peer'))
  {
    IskInputIsInjective(sid, ScalarMultVfy(suite, secret, peer).value, ya, [], yb, id,
                        sid', ScalarMultVfy(suite, secret', peer').value, ya', [], yb', id');
  }

  /** The two shared points, when each side used its own generator. */
  lemma SharedPoints(suite: Suite, a: nat, b: nat, g: nat, h: nat)
    requires Ideal(suite) && 0 < a < suite.q && 0 < b < suite.q && 0 < g < suite.q && 0 < h < suite.q
    ensures ScalarMultVfy(suite, a, suite.encode(ScalarMult(suite.q, b, h))).Some?
    ensures ScalarMultVfy(suite, b, suite.encode(ScalarMult(suite.q, a, g))).Some?
    ensures ScalarMultVfy(suite, a, suite.encode(ScalarMult(suite.q, b, h)))
            == ScalarMultVfy(suite, b, suite.encode(ScalarMult(suite.q, a, g)))
            <==> g == h
  {
    hide Prime, ScalarMult;
    var q := suite.q;
    InRange(q, a, g);
    InRange(q, b, h);
    InRange(q, b, g);
    InRange(q, a, h);
    var clientSees, hostSees := ScalarMult(q, b, h), ScalarMult(q, a, g);
    NoZeroDivisors(q, b, h);
    NoZeroDivisors(q, a, g);
    RefusedExactlyWhen(suite, a, suite.encode(clientSees));
    RefusedExactlyWhen(suite, b, suite.encode(hostSees));
    var x, y := ScalarMult(q, a, clientSees), ScalarMult(q, b, hostSees);
    InRange(q, a, clientSees);
    InRange(q, b, hostSees);
    SecretsCommute(q, a, b, g);
    DifferentElementsStayDifferent(q, b, g, h);
    DifferentElementsStayDifferent(q, a, ScalarMult(q, b, g), ScalarMult(q, b, h));
    if suite.encode(x) == suite.encode(y) { EncodingIsInjective(suite, x, y); }
  }

  lemma InRange(q: nat, s: nat, e: nat)
    requires q > 0
    ensures ScalarMult(q, s, e) < q
  {
  }

  /** Two sides that exchanged their messages unchanged and hold non-zero secrets
  both finish; they hold the same key and the same tag exactly when their
  generators, their session and their handshake identifier are the same. */
  lemma KeysMatchExactlyWhen(suite: Suite, a: nat, b: nat, code: Bytes, host: Bytes, sid: Bytes, id: Bytes,
                             code': Bytes, host': Bytes, sid': Bytes, id': Bytes)
    requires Ideal(suite) && 0 < a < suite.q && 0 < b < suite.q
    requires Generator(suite, code, host, sid) != 0 && Generator(suite, code', host', sid') != 0
    ensures var ya := Message(suite, a, code, host, sid); var yb := Message(suite, b, code', host', sid');
            var client := ClientComplete(suite, a, sid, ya, yb, id);
            var server := HostComplete(suite, b, sid', ya, yb, id');
            && client.Some? && server.Some?
            && (client.value.key == server.value.key <==> client.value.proof == server.value.proof)
            && (client.value.key == server.value.key
                <==> sid == sid' && id == id'
                     && Generator(suite, code, host, sid) == Generator(suite, code', host', sid'))
  {
    hide Generator, ScalarMultVfy, ScalarMult;
    var g, h := Generator(suite, code, host, sid), Generator(suite, code', host', sid');
    GeneratorInRange(suite, code, host, sid);
    GeneratorInRange(suite, code', host', sid');
    SharedPoints(suite, a, b, g, h);
    var ya, yb := Message(suite, a, code, host, sid), Message(suite, b, code', host', sid');
    TranscriptIsBound(suite, a, yb, sid, ya, yb, id, b, ya, sid', ya, yb, id');
  }

  lemma GeneratorInRange(suite: Suite, code: Bytes, host: Bytes, sid: Bytes)
    requires Ideal(suite)
    ensures Generator(suite, code, host, sid) < suite.q
  {
  }

  /** Sharing the code and the host is enough to agree; agreeing without it needs
  two different strings that hash to one generator. */
  lemma AgreementMeansSameCode(suite: Suite, a: nat, b: nat, code: Bytes, host: Bytes, code': Bytes, host': Bytes,
                               sid: Bytes, id: Bytes)
    requires Ideal(suite) && 0 < a < suite.q && 0 < b < suite.q
    requires Generator(suite, code, host, sid) != 0 && Generator(suite, code', host', sid) != 0
    ensures var ya := Message(suite, a, code, host, sid); var yb := Message(suite, b, code', host', sid);
            var client := ClientComplete(suite, a, sid, ya, yb, id);
            var server := HostComplete(suite, b, sid, ya, yb, id);
            && (code == code' && host == host' ==> client.Some? && client == server)
            && (client == server ==>
                  (code == code' && host == host')
                  || (GeneratorString(code, host, sid) != GeneratorString(code', host', sid)
                      && suite.generatorOf(GeneratorString(code, host, sid))
                         == suite.generatorOf(GeneratorString(code', host', sid))))
  {
    hide ClientComplete, HostComplete, Message, GeneratorString;
    KeysMatchExactlyWhen(suite, a, b, code, host, sid, id, code', host', sid, id);
    GeneratorStringIsInjective(code, host, sid, code', host', sid);
  }

  /** The assumptions on the group can be met, with different non-zero generators. */
  lemma IdealSuitesExist()
    ensures exists suite: Suite :: Ideal(suite) && suite.generatorOf([]) > 0 && suite.generatorOf([0]) > 0
                                   && suite.generatorOf([]) != suite.generatorOf([0])
  {
    var suite := Suite(3, x => if x == [] then 1 else 2, e => [e % 256],
                       b => if |b| == 1 && b[0] < 3 then Some(b[0]) else None);
    assert suite.generatorOf([]) != suite.generatorOf([0]);
    forall b | suite.decode(b).Some? ensures suite.encode(suite.decode(b).value) == b {
      assert b == [b[0]] && b[0] % 256 == b[0];
    }
    assert Prime(3);
    assert Ideal(suite);
  }

  // ---------------------------------------------------------------- registry

  const SESSION_ID_SIZE: nat := 16

  /** Three minutes, in nanoseconds. */
  const HANDSHAKE_TTL: int := 180_000_000_000

  datatype Handshake = Handshake(created: int, code: Bytes, key: Key, expected: Tag)

  type Registry = map<Bytes, Handshake>

  datatype BeginResult = Started(h: Handshake, message: Bytes) | BadSessionId | BadElement

  datatype CompleteResult = UnknownHandshake | Expired | BadProof(code: Bytes) | Agreed(key: Key, code: Bytes)

  /** One call of `Begin`: what the joining device sent, the random choices and the
  two readings of the clock. */
  datatype Opening = Opening(host: Bytes, code: Bytes, sid: Bytes, clientMessage: Bytes,
                             id: Bytes, secret: nat, created: int, swept: int)

  function Swept(registry: Registry, now: int): Registry {
    map id | id in registry && registry[id].created >= now - HANDSHAKE_TTL :: registry[id]
  }

  function BeginSpec(suite: Suite, o: Opening): BeginResult
    requires suite.q > 0
  {
    if |o.sid| != SESSION_ID_SIZE then BadSessionId
    else
      var message := Message(suite, o.secret, o.code, o.host, o.sid);
      match HostComplete(suite, o.secret, o.sid, o.clientMessage, message, o.id)
      case None => BadElement
      case Some(d) => Started(Handshake(o.created, o.code, d.key, d.proof), message)
  }

  function AfterBegin(suite: Suite, registry: Registry, o: Opening): Registry
    requires suite.q > 0
  {
    match BeginSpec(suite, o)
    case Started(h, _) => Swept(registry, o.swept)[o.id := h]
    case _ => registry
  }

  function CompleteSpec(registry: Registry, id: Bytes, proof: Tag, now: int): CompleteResult {
    if id !in registry then UnknownHandshake
    else
      var h := registry[id];
      if now - h.created > HANDSHAKE_TTL then Expired
      else if h.expected != proof then BadProof(h.code)
      else Agreed(h.key, h.code)
  }

  /** Every answer to a start. */
  lemma BegunExactlyWhen(suite: Suite, o: Opening)
    requires suite.q > 0
    ensures var r := BeginSpec(suite, o);
            var share := HostComplete(suite, o.secret, o.sid, o.clientMessage,
                                      Message(suite, o.secret, o.code, o.host, o.sid), o.id);
            && (r == BadSessionId <==> |o.sid| != 16)
            && (r == BadElement <==> |o.sid| == 16 && share.None?)
            && (r.Started? ==>
                  && share.Some? && r.h == Handshake(o.created, o.code, share.value.key, share.value.proof)
                  && r.message == Message(suite, o.secret, o.code, o.host, o.sid))
  {
    hide HostComplete, Message;
  }

  /** Every answer to a completion: three minutes are enough, and the code to charge is
  named by a wrong proof as by a right one. */
  lemma CompletedExactlyWhen(registry: Registry, id: Bytes, proof: Tag, now: int)
    ensures var r := CompleteSpec(registry, id, proof, now);
            && (r == UnknownHandshake <==> id !in registry)
            && (r == Expired <==> id in registry && now - registry[id].created > 180_000_000_000)
            && (r.BadProof? <==> id in registry && now - registry[id].created <= 180_000_000_000
                                 && registry[id].expected != proof)
            && (r.Agreed? <==> id in registry && now - registry[id].created <= 180_000_000_000
                               && registry[id].expected == proof)
            && (r.BadProof? ==> r.code == registry[id].code)
            && (r.Agreed? ==> r.key == registry[id].key && r.code == registry[id].code)
  {
  }

  /** A sweep keeps exactly what is at most three minutes old, as it is. */
  lemma SweptExactlyWhen(registry: Registry, now: int, id: Bytes)
    ensures id in Swept(registry, now) <==> id in registry && now - registry[id].created <= 180_000_000_000
    ensures id in Swept(registry, now) ==> Swept(registry, now)[id] == registry[id]
  {
  }

  datatype Event = Begin(o: Opening) | Finish(id: Bytes, proof: Tag, now: int)

  function Step(suite: Suite, registry: Registry, e: Event): Registry
    requires suite.q > 0
  {
    match e
    case Begin(o) => AfterBegin(suite, registry, o)
    case Finish(id, _, _) => registry - {id}
  }

  function Run(suite: Suite, registry: Registry, events: seq<Event>): Registry
    requires suite.q > 0
    decreases |events|
  {
    if |events| == 0 then registry else Run(suite, Step(suite, registry, events[0]), events[1..])
  }

  /** The event neither starts nor finishes the exchange with this identifier. */
  predicate LeavesAlone(id: Bytes, e: Event) {
    match e
    case Begin(o) => o.id != id
    case Finish(other, _, _) => other != id
  }

  predicate Starts(id: Bytes, e: Event) {
    e.Begin? && e.o.id == id
  }

  lemma {:induction false} RunConcat(suite: Suite, registry: Registry, a: seq<Event>, b: seq<Event>)
    requires suite.q > 0
    ensures Run(suite, registry, a + b) == Run(suite, Run(suite, registry, a), b)
    decreases |a|
  {
    if |a| == 0 {
      assert a + b == b;
    } else {
      RunConcat(suite, Step(suite, registry, a[0]), a[1..], b);
      assert (a + b)[1..] == a[1..] + b;
    }
  }

  lemma {:induction false} StaysUnknown(suite: Suite, registry: Registry, events: seq<Event>, id: Bytes)
    requires suite.q > 0 && id !in registry
    requires forall i :: 0 <= i < |events| ==> !Starts(id, events[i])
    ensures id !in Run(suite, registry, events)
    decreases |events|
  {
    hide BeginSpec;
    if |events| > 0 {
      assert !Starts(id, events[0]);
      StaysUnknown(suite, Step(suite, registry, events[0]), events[1..], id);
    }
  }

  /** A handshake is consumed by its first `Complete`, whatever the proof and the
  answer were: until another one starts under its identifier, every further call
  finds nothing. */
  lemma ConsumedByFirstComplete(suite: Suite, registry: Registry, id: Bytes, proof: Tag, now: int,
                                between: seq<Event>, proof': Tag, now': int)
    requires suite.q > 0
    requires forall i :: 0 <= i < |between| ==> !Starts(id, between[i])
    ensures CompleteSpec(Run(suite, registry, [Finish(id, proof, now)] + between), id, proof', now') == UnknownHandshake
  {
    RunConcat(suite, registry, [Finish(id, proof, now)], between);
    RunOne(suite, registry, Finish(id, proof, now));
    StaysUnknown(suite, registry - {id}, between, id);
  }

  lemma RunOne(suite: Suite, registry: Registry, e: Event)
    requires suite.q > 0
    ensures Run(suite, registry, [e]) == Step(suite, registry, e)
  {
  }

  /** What is registered under an identifier was put there by a `Begin` of this run,
  and nothing has touched the identifier since. */
  lemma {:induction false} RegisteredWasBegun(suite: Suite, events: seq<Event>, id: Bytes) returns (i: nat)
    requires suite.q > 0 && id in Run(suite, map[], events)
    ensures i < |events| && Starts(id, events[i]) && BeginSpec(suite, events[i].o).Started?
    ensures Run(suite, map[], events)[id] == BeginSpec(suite, events[i].o).h
    ensures forall k :: i < k < |events| && LeavesAlone(id, events[k]) == false ==>
              events[k].Begin? && !BeginSpec(suite, events[k].o).Started?
  {
    hide BeginSpec;
    assert |events| > 0;
    var n := |events| - 1;
    var before := events[..n];
    assert events == before + [events[n]];
    RunConcat(suite, map[], before, [events[n]]);
    RunOne(suite, Run(suite, map[], before), events[n]);
    if Starts(id, events[n]) && BeginSpec(suite, events[n].o).Started? {
      i := n;
    } else {
      i := RegisteredWasBegun(suite, before, id);
      assert forall k :: 0 <= k < n ==> before[k] == events[k];
    }
  }

  /** A key is handed out only for the tag that the host's half of one earlier
  `Begin` expects, within three minutes of it, and for the code it was bound to. */
  lemma AgreedMeansProven(suite: Suite, events: seq<Event>, id: Bytes, proof: Tag, now: int) returns (i: nat)
    requires suite.q > 0
    requires CompleteSpec(Run(suite, map[], events), id, proof, now).Agreed?
    ensures i < |events| && Starts(id, events[i]) && BeginSpec(suite, events[i].o).Started?
    ensures var o := events[i].o; var answer := CompleteSpec(Run(suite, map[], events), id, proof, now);
            var mine := HostComplete(suite, o.secret, o.sid, o.clientMessage, BeginSpec(suite, o).message, id);
            && mine == Some(Derived(answer.key, proof)) && answer.code == o.code
            && now - o.created <= HANDSHAKE_TTL
    ensures forall k :: i < k < |events| ==> !(events[k].Finish? && events[k].id == id)
  {
    hide HostComplete, Message;
    i := RegisteredWasBegun(suite, events, id);
    forall k | i < k < |events| ensures !(events[k].Finish? && events[k].id == id) {
      if !LeavesAlone(id, events[k]) { assert events[k].Begin?; }
    }
  }

  /** Nothing removes a young handshake but its own completion. */
  lemma {:induction false} SurvivesOthers(suite: Suite, registry: Registry, events: seq<Event>, id: Bytes)
    requires suite.q > 0 && id in registry
    requires forall i :: 0 <= i < |events| ==> LeavesAlone(id, events[i])
    requires forall i :: 0 <= i < |events| && events[i].Begin? ==>
               events[i].o.swept - registry[id].created <= HANDSHAKE_TTL
    ensures id in Run(suite, registry, events) && Run(suite, registry, events)[id] == registry[id]
    decreases |events|
  {
    hide BeginSpec;
    if |events| > 0 {
      assert LeavesAlone(id, events[0]);
      SurvivesOthers(suite, Step(suite, registry, events[0]), events[1..], id);
    }
  }

  /** A device that took part in the exchange with its own code and presents its
  tag in time is given its own key when its generator is the host's, and otherwise
  a refusal that names the code to charge, whatever else happened in between. */
  lemma ExchangeDecidesTheAnswer(suite: Suite, registry: Registry, o: Opening, a: nat, code: Bytes, host: Bytes,
                                 between: seq<Event>, now: int)
    requires Ideal(suite) && 0 < a < suite.q && 0 < o.secret < suite.q && |o.sid| == SESSION_ID_SIZE
    requires Generator(suite, code, host, o.sid) != 0 && Generator(suite, o.code, o.host, o.sid) != 0
    requires o.clientMessage == Message(suite, a, code, host, o.sid)
    requires forall i :: 0 <= i < |between| ==> LeavesAlone(o.id, between[i])
    requires forall i :: 0 <= i < |between| && between[i].Begin? ==> between[i].o.swept - o.created <= HANDSHAKE_TTL
    requires now - o.created <= HANDSHAKE_TTL
    ensures BeginSpec(suite, o).Started?
    ensures var client := ClientComplete(suite, a, o.sid, o.clientMessage, BeginSpec(suite, o).message, o.id);
            && client.Some?
            && CompleteSpec(Run(suite, registry, [Begin(o)] + between), o.id, client.value.proof, now)
               == if Generator(suite, code, host, o.sid) == Generator(suite, o.code, o.host, o.sid)
                  then Agreed(client.value.key, o.code)
                  else BadProof(o.code)
  {
    hide Ideal, Generator, ClientComplete, HostComplete, Message;
    PrimeIsPositive(suite);
    KeysMatchExactlyWhen(suite, a, o.secret, code, host, o.sid, o.id, o.code, o.host, o.sid, o.id);
    var after := Step(suite, registry, Begin(o));
    RunConcat(suite, registry, [Begin(o)], between);
    RunOne(suite, registry, Begin(o));
    SurvivesOthers(suite, after, between, o.id);
  }

  lemma PrimeIsPositive(suite: Suite)
    requires Ideal(suite)
    ensures suite.q > 0
  {
  }

  // ---------------------------------------------------------------- in place

  class Handshakes {
    const suite: Suite
    var inFlight: Registry

    constructor (suite: Suite)
      ensures this.suite == suite && inFlight == map[]
    {
      this.suite := suite;
      inFlight := map[];
    }

    /** Drops the handshakes that timed out, one by one. */
    method Sweep(now: int)
      modifies this
      ensures inFlight == Swept(old(inFlight), now)
    {
      var ids := inFlight.Keys;
      ghost var before := inFlight;
      while ids != {}
        invariant ids <= before.Keys
        invariant forall id :: id in inFlight <==>
                    id in before && (id in ids || before[id].created >= now - HANDSHAKE_TTL)
        invariant forall id :: id in inFlight ==> inFlight[id] == before[id]
        decreases |ids|
      {
        var id :| id in ids;
        if inFlight[id].created < now - HANDSHAKE_TTL {
          inFlight := inFlight - {id};
        }
        ids := ids - {id};
      }
    }

    method Begin(o: Opening) returns (r: BeginResult)
      requires suite.q > 0
      modifies this
      ensures r == BeginSpec(suite, o)
      ensures inFlight == Step(suite, old(inFlight), Event.Begin(o))
    {
      if |o.sid| != SESSION_ID_SIZE { return BadSessionId; }
      var message := Message(suite, o.secret, o.code, o.host, o.sid);
      var derived := HostComplete(suite, o.secret, o.sid, o.clientMessage, message, o.id);
      if derived.None? { return BadElement; }
      var h := Handshake(o.created, o.code, derived.value.key, derived.value.proof);
      Sweep(o.swept);
      inFlight := inFlight[o.id := h];
      r := Started(h, message);
    }

    method Complete(id: Bytes, proof: Tag, now: int) returns (r: CompleteResult)
      requires suite.q > 0
      modifies this
      ensures r == CompleteSpec(old(inFlight), id, proof, now)
      ensures inFlight == Step(suite, old(inFlight), Finish(id, proof, now)) && id !in inFlight
    {
      if id !in inFlight {
        assert inFlight - {id} == inFlight;
        return UnknownHandshake;
      }
      var h := inFlight[id];
      inFlight := inFlight - {id};
      if now - h.created > HANDSHAKE_TTL { return Expired; }
      if h.expected != proof { return BadProof(h.code); }
      r := Agreed(h.key, h.code);
    }
  }
}
