/**
The sealed envelope: nonces, associated data, counters and the refusal of replays.

The cipher is ideal: a box can be opened only with the key, nonce and associated
data it was sealed with, and the network cannot make one. The Go envelope is the
state machine; the browser's is compared with it at the end.
*/
module Envelope {
  import opened Common
  import opened Framing
  import opened Positional

  datatype Direction = ClientToServer | ServerToClient

  const COUNTER_SIZE: nat := 8
  const KEY_SIZE: nat := 32

  function Opposite(d: Direction): Direction {
    if d == ServerToClient then ClientToServer else ServerToClient
  }

  // ------------------------------------------------------------------- bytes

  /** The last `k` bytes of `v`, most significant first. */
  function BigEndian(v: nat, k: nat): (s: Bytes)
    ensures |s| == k && forall i :: 0 <= i < k ==> s[i] == Digits(v, 256, k)[i]
  {
    DigitsAreProper(v, 256, k);
    seq(k, i requires 0 <= i < k => Digits(v, 256, k)[i])
  }

  function FromBytes(s: Bytes): nat {
    Value(seq(|s|, i requires 0 <= i < |s| => s[i]), 256)
  }

  lemma BytesRoundTrip(v: nat)
    requires v < U64
    ensures FromBytes(BigEndian(v, 8)) == v
  {
    hide Value, Digits;
    WordPowers();
    ValueOfDigits(v, 256, 8);
    var s := BigEndian(v, 8);
    assert seq(|s|, i requires 0 <= i < |s| => s[i] as nat) == Digits(v, 256, 8);
    SmallRemainder(v, Pow(256, 8));
  }

  lemma WordPowers()
    ensures Pow(256, 8) == U64 && Pow(256, 4) == 0x1_0000_0000
  {
  }

  lemma SameBytes(v: nat, w: nat, k: nat)
    requires Pow(256, k) > 0
    ensures BigEndian(v, k) == BigEndian(w, k) <==> v % Pow(256, k) == w % Pow(256, k)
  {
    hide Digits, Value;
    SameDigits(v, w, 256, k);
    var a, b := BigEndian(v, k), BigEndian(w, k);
    if a == b {
      assert forall i :: 0 <= i < k ==> Digits(v, 256, k)[i] == a[i] == b[i] == Digits(w, 256, k)[i];
      assert Digits(v, 256, k) == Digits(w, 256, k);
    }
  }

  // -------------------------------------------------------- nonce, bound data

  function DirectionByte(d: Direction): Byte {
    if d == ClientToServer then 0 else 1
  }

  function Nonce(d: Direction, counter: nat): Bytes {
    [DirectionByte(d)] + BigEndian(counter, 8) + [0, 0, 0]
  }

  function VersionBytes(version: int): (s: Bytes)
    ensures |s| == 4
  {
    BigEndian(version % 0x1_0000_0000, 4)
  }

  /** The data that binds a message to its endpoint. */
  function Aad(at: Endpoint): Bytes {
    at.verb + [0] + at.path + [0] + VersionBytes(at.version)
  }

  datatype Endpoint = Endpoint(verb: Bytes, path: Bytes, version: int)

  predicate NulFree(s: Bytes) {
    0 !in s
  }

  /** How a nonce is laid out: twelve bytes, with the way of the message
  first, then its counter, most significant byte first, and three zeros. */
  lemma NonceLayout(d: Direction, counter: nat)
    requires counter < U64
    ensures var n := Nonce(d, counter);
            && |n| == 12 && n[0] == (if d == ClientToServer then 0 else 1) && n[9..] == [0, 0, 0]
            && FromBytes(n[1..9]) == counter
  {
    hide BigEndian;
    var n := Nonce(d, counter);
    assert n[1..9] == BigEndian(counter, 8);
    BytesRoundTrip(counter);
  }

  /** Two messages share a nonce exactly when they go the same way and their
  counters are congruent modulo 2^64. */
  lemma NonceIsInjective(d: Direction, counter: nat, d': Direction, counter': nat)
    ensures Nonce(d, counter) == Nonce(d', counter') <==> d == d' && counter % U64 == counter' % U64
  {
    hide BigEndian;
    WordPowers();
    SameBytes(counter, counter', 8);
    var a, b := Nonce(d, counter), Nonce(d', counter');
    assert a[0] == DirectionByte(d) && b[0] == DirectionByte(d');
    assert a[1..9] == BigEndian(counter, 8) && b[1..9] == BigEndian(counter', 8);
  }

  ghost predicate SameEndpoint(a: Endpoint, b: Endpoint) {
    a.verb == b.verb && a.path == b.path && a.version % 0x1_0000_0000 == b.version % 0x1_0000_0000
  }

  /** With methods free of zero bytes the associated data determines the method,
  the path (which may hold any bytes) and the low 32 bits of the version. */
  lemma AadIsInjective(a: Endpoint, b: Endpoint)
    requires NulFree(a.verb) && NulFree(b.verb)
    ensures Aad(a) == Aad(b) <==> SameEndpoint(a, b)
  {
    hide VersionBytes, Aad;
    SameVersionBytes(a.version, b.version);
    if Aad(a) == Aad(b) {
      AadDetermines(a, b);
    }
    if SameEndpoint(a, b) {
      AadFollows(a, b);
    }
  }

  lemma AadFollows(a: Endpoint, b: Endpoint)
    requires a.verb == b.verb && a.path == b.path && VersionBytes(a.version) == VersionBytes(b.version)
    ensures Aad(a) == Aad(b)
  {
  }

  lemma SameVersionBytes(v: int, w: int)
    ensures VersionBytes(v) == VersionBytes(w) <==> v % 0x1_0000_0000 == w % 0x1_0000_0000
  {
    hide BigEndian;
    WordPowers();
    SameBytes(v % 0x1_0000_0000, w % 0x1_0000_0000, 4);
  }

  lemma AadDetermines(a: Endpoint, b: Endpoint)
    requires NulFree(a.verb) && NulFree(b.verb) && Aad(a) == Aad(b)
    ensures a.verb == b.verb && a.path == b.path && VersionBytes(a.version) == VersionBytes(b.version)
  {
    hide VersionBytes;
    SplitFromEnd(a.verb + [0] + a.path + [0], VersionBytes(a.version),
                 b.verb + [0] + b.path + [0], VersionBytes(b.version));
    SplitFromEnd(a.verb + [0] + a.path, [0], b.verb + [0] + b.path, [0]);
    SplitAtZero(a.verb, a.path, b.verb, b.path);
  }

  lemma SplitFromEnd(a: Bytes, x: Bytes, b: Bytes, y: Bytes)
    requires |x| == |y| && a + x == b + y
    ensures a == b && x == y
  {
    var s, t := a + x, b + y;
    assert |a| == |s| - |x| == |t| - |y| == |b|;
    assert s[..|a|] == a && t[..|a|] == b && s[|a|..] == x && t[|a|..] == y;
  }

  /** The first zero byte ends a part without zero bytes. */
  lemma SplitAtZero(a: Bytes, x: Bytes, b: Bytes, y: Bytes)
    requires NulFree(a) && NulFree(b) && a + [0] + x == b + [0] + y
    ensures a == b && x == y
  {
    FirstZeroIsSeparator(a, x);
    FirstZeroIsSeparator(b, y);
    SplitFromEnd(a, [0] + x, b, [0] + y) by {
      assert a + ([0] + x) == a + [0] + x && b + ([0] + y) == b + [0] + y;
    }
    assert ([0] + x)[1..] == x && ([0] + y)[1..] == y;
  }

  function FirstZero(s: Bytes): nat {
    if |s| == 0 || s[0] == 0 then 0 else 1 + FirstZero(s[1..])
  }

  lemma {:induction false} FirstZeroIsSeparator(a: Bytes, x: Bytes)
    requires NulFree(a)
    ensures FirstZero(a + [0] + x) == |a|
  {
    if |a| > 0 {
      assert a[0] != 0;
      FirstZeroIsSeparator(a[1..], x);
      assert (a + [0] + x)[1..] == a[1..] + [0] + x;
    } else {
      assert (a + [0] + x)[0] == 0;
    }
  }

  /** A zero byte in a method lets one message pass for two endpoints. */
  lemma ZeroInMethodConfuses(a: Bytes, b: Bytes, c: Bytes, version: int)
    ensures Aad(Endpoint(a + [0] + b, c, version)) == Aad(Endpoint(a, b + [0] + c, version))
    ensures !SameEndpoint(Endpoint(a + [0] + b, c, version), Endpoint(a, b + [0] + c, version))
  {
  }

  // ---------------------------------------------------------------- envelope

  /** A ciphertext: the work of the cipher, or bytes that are no such work. */
  datatype Cipher = Box(key: Bytes, nonce: Bytes, aad: Bytes, plain: Bytes) | Junk(bytes: Bytes)

  /** The wire form: up to eight bytes of counter, then the ciphertext. */
  datatype Wire = Wire(header: Bytes, body: Cipher)

  function AeadOpen(key: Bytes, nonce: Bytes, aad: Bytes, c: Cipher): Option<Bytes> {
    if c.Box? && c.key == key && c.nonce == nonce && c.aad == aad then Some(c.plain) else None
  }

  datatype State = State(key: Bytes, send: Direction, counter: nat, high: nat, seenAny: bool)

  datatype Sealed = SealedOk(wire: Wire) | CounterWrapped

  datatype Opened = Plain(plain: Bytes) | Replay | Malformed | AuthFailed

  function SealSpec(e: State, at: Endpoint, plain: Bytes): (State, Sealed) {
    if e.counter == U64 - 1 then (e, CounterWrapped)
    else
      var c := e.counter + 1;
      (e.(counter := c), SealedOk(Wire(BigEndian(c, 8), Box(e.key, Nonce(e.send, c), Aad(at), plain))))
  }

  function OpenSpec(e: State, at: Endpoint, w: Wire): (State, Opened) {
    if |w.header| < COUNTER_SIZE then (e, Malformed)
    else
      var c := FromBytes(w.header[..COUNTER_SIZE]);
      if e.seenAny && c <= e.high then (e, Replay)
      else if c == 0 then (e, Malformed)
      else
        match AeadOpen(e.key, Nonce(Opposite(e.send), c), Aad(at), w.body)
        case None => (e, AuthFailed)
        case Some(plain) => (e.(high := c, seenAny := true), Plain(plain))
  }

  /** Opening changes nothing unless it succeeds; then the counter is larger than
  every counter accepted before. */
  lemma FailedOpenChangesNothing(e: State, at: Endpoint, w: Wire)
    ensures var (e', r) := OpenSpec(e, at, w);
            && (!r.Plain? <==> e' == e)
            && (r.Plain? ==> e' == e.(high := e'.high, seenAny := true))
            && (r.Plain? ==> e'.high > 0 && (e.seenAny ==> e.high < e'.high))
  {
  }

  // -------------------------------------------------- two ends and a network

  datatype Side = Client | Server

  /** A message as its sender meant it, and as its receiver took it. */
  datatype Note = Note(at: Endpoint, plain: Bytes, counter: nat)

  /** One envelope on each side, made with one key; `sent` and `got` are records
  kept by the model. `start` is where the client's counter began. */
  datatype World = World(client: State, server: State, start: nat,
                         sentByClient: seq<Note>, sentByServer: seq<Note>,
                         gotByClient: seq<Note>, gotByServer: seq<Note>)

  function Begin(key: Bytes, start: nat): World {
    World(State(key, ClientToServer, start, 0, false), State(key, ServerToClient, 0, 0, false), start, [], [], [], [])
  }

  datatype Event =
    | Seal(side: Side, at: Endpoint, plain: Bytes)
    | Deliver(side: Side, at: Endpoint, wire: Wire)

  function BoxOf(key: Bytes, d: Direction, n: Note): Cipher {
    Box(key, Nonce(d, n.counter), Aad(n.at), n.plain)
  }

  /** The network may deliver any header with any ciphertext it can have: one that
  was sealed by either side, whenever and for whomever, one under another key, or
  bytes of its own making. */
  ghost predicate CanSend(w: World, body: Cipher) {
    || body.Junk?
    || body.key != w.client.key
    || (exists i :: 0 <= i < |w.sentByClient| && body == BoxOf(w.client.key, ClientToServer, w.sentByClient[i]))
    || (exists i :: 0 <= i < |w.sentByServer| && body == BoxOf(w.client.key, ServerToClient, w.sentByServer[i]))
  }

  ghost function Step(w: World, e: Event): World {
    match e
    case Seal(Client, at, plain) =>
      var (s, r) := SealSpec(w.client, at, plain);
      if r.CounterWrapped? then w
      else w.(client := s, sentByClient := w.sentByClient + [Note(at, plain, s.counter)])
    case Seal(Server, at, plain) =>
      var (s, r) := SealSpec(w.server, at, plain);
      if r.CounterWrapped? then w
      else w.(server := s, sentByServer := w.sentByServer + [Note(at, plain, s.counter)])
    case Deliver(Client, at, wire) =>
      if !CanSend(w, wire.body) then w
      else
        var (s, r) := OpenSpec(w.client, at, wire);
        if r.Plain? then w.(client := s, gotByClient := w.gotByClient + [Note(at, r.plain, s.high)]) else w
    case Deliver(Server, at, wire) =>
      if !CanSend(w, wire.body) then w
      else
        var (s, r) := OpenSpec(w.server, at, wire);
        if r.Plain? then w.(server := s, gotByServer := w.gotByServer + [Note(at, r.plain, s.high)]) else w
  }

  ghost function Run(w: World, events: seq<Event>): World {
    if |events| == 0 then w else Step(Run(w, events[..|events| - 1]), events[|events| - 1])
  }

  predicate NulFreeMethods(events: seq<Event>) {
    forall i :: 0 <= i < |events| ==> NulFree(events[i].at.verb)
  }

  // --------------------------------------------------------------- invariant

  /** The messages of one sender carry consecutive counters. */
  ghost predicate Consecutive(sent: seq<Note>, start: nat, counter: nat) {
    && counter == start + |sent|
    && (forall i :: 0 <= i < |sent| ==> sent[i].counter == start + i + 1 && NulFree(sent[i].at.verb))
  }

  /** What one side accepted is, in order, part of what the other side sent: its
  k-th entry is the message with the counter it was accepted under, and those
  counters increase. */
  ghost predicate InOrderPart(got: seq<Note>, sent: seq<Note>, start: nat) {
    && (forall k :: 0 <= k < |got| ==>
          start < got[k].counter <= start + |sent|
          && got[k].plain == sent[got[k].counter - start - 1].plain
          && SameEndpoint(got[k].at, sent[got[k].counter - start - 1].at))
    && (forall j, k :: 0 <= j < k < |got| ==> got[j].counter < got[k].counter)
  }

  ghost predicate HighOk(e: State, got: seq<Note>) {
    && (e.seenAny <==> got != [])
    && (got != [] ==> e.high == got[|got| - 1].counter)
  }

  ghost predicate Inv(w: World) {
    && w.client.key == w.server.key && w.client.send == ClientToServer && w.server.send == ServerToClient
    && w.client.counter < U64 && w.server.counter < U64
    && Consecutive(w.sentByClient, w.start, w.client.counter)
    && Consecutive(w.sentByServer, 0, w.server.counter)
    && InOrderPart(w.gotByServer, w.sentByClient, w.start) && HighOk(w.server, w.gotByServer)
    && InOrderPart(w.gotByClient, w.sentByServer, 0) && HighOk(w.client, w.gotByClient)
  }

  /** A box that opens was sealed in the direction the receiver reads, under the
  counter in the header and for the endpoint it is opened for. */
  lemma OpensAsSealed(me: State, at: Endpoint, wire: Wire, d: Direction, n: Note)
    requires NulFree(at.verb) && NulFree(n.at.verb) && n.counter < U64
    requires wire.body == BoxOf(me.key, d, n) && OpenSpec(me, at, wire).1.Plain?
    ensures d == Opposite(me.send) && OpenSpec(me, at, wire).0.high == n.counter
    ensures OpenSpec(me, at, wire).1.plain == n.plain && SameEndpoint(at, n.at)
  {
    hide Nonce, Aad, BigEndian, SameEndpoint, FromBytes;
    var c := FromBytes(wire.header[..COUNTER_SIZE]);
    HeaderFits(wire.header[..COUNTER_SIZE]);
    NonceIsInjective(Opposite(me.send), c, d, n.counter);
    AadIsInjective(at, n.at);
  }

  /** What an ideal cipher lets one side accept. */
  lemma AcceptedWasSent(w: World, me: State, at: Endpoint, wire: Wire, sent: seq<Note>, start: nat)
    requires Inv(w) && NulFree(at.verb) && CanSend(w, wire.body)
    requires (me == w.server && sent == w.sentByClient && start == w.start)
             || (me == w.client && sent == w.sentByServer && start == 0)
    requires OpenSpec(me, at, wire).1.Plain?
    ensures var c := OpenSpec(me, at, wire).0.high;
            && start < c <= start + |sent|
            && sent[c - start - 1].plain == OpenSpec(me, at, wire).1.plain
            && SameEndpoint(at, sent[c - start - 1].at)
  {
    hide BoxOf, SameEndpoint, InOrderPart, HighOk;
    OpensOnlyBoxes(me, at, wire);
    hide OpenSpec;
    if i :| 0 <= i < |w.sentByClient| && wire.body == BoxOf(w.client.key, ClientToServer, w.sentByClient[i]) {
      OpensAsSealed(me, at, wire, ClientToServer, w.sentByClient[i]);
    } else {
      var i :| 0 <= i < |w.sentByServer| && wire.body == BoxOf(w.client.key, ServerToClient, w.sentByServer[i]);
      OpensAsSealed(me, at, wire, ServerToClient, w.sentByServer[i]);
    }
  }

  lemma OpensOnlyBoxes(me: State, at: Endpoint, wire: Wire)
    requires OpenSpec(me, at, wire).1.Plain?
    ensures wire.body.Box? && wire.body.key == me.key
  {
  }

  lemma HeaderFits(h: Bytes)
    requires |h| == 8
    ensures FromBytes(h) < U64
  {
    WordPowers();
    ValueBound(seq(|h|, i requires 0 <= i < |h| => h[i]), 256);
  }

  lemma SealKeepsOrder(got: seq<Note>, sent: seq<Note>, start: nat, n: Note)
    requires InOrderPart(got, sent, start)
    ensures InOrderPart(got, sent + [n], start)
  {
    hide SameEndpoint;
  }

  lemma AcceptKeepsOrder(got: seq<Note>, sent: seq<Note>, start: nat, n: Note)
    requires InOrderPart(got, sent, start)
    requires got != [] ==> got[|got| - 1].counter < n.counter
    requires start < n.counter <= start + |sent| && n.plain == sent[n.counter - start - 1].plain
    requires SameEndpoint(n.at, sent[n.counter - start - 1].at)
    ensures InOrderPart(got + [n], sent, start)
  {
    hide SameEndpoint;
  }

  lemma StepKeepsInv(w: World, e: Event)
    requires Inv(w) && NulFree(e.at.verb)
    ensures Inv(Step(w, e)) && Step(w, e).start == w.start && Step(w, e).client.key == w.client.key
  {
    hide Nonce, Aad, BigEndian, FromBytes, SameEndpoint, CanSend, InOrderPart, OpenSpec, HighOk;
    match e
    case Seal(side, at, plain) =>
      SealKeepsOrder(w.gotByServer, w.sentByClient, w.start, Note(at, plain, w.client.counter + 1));
      SealKeepsOrder(w.gotByClient, w.sentByServer, 0, Note(at, plain, w.server.counter + 1));
      HighOnly(w.client, w.server, at, plain, w.gotByClient, w.gotByServer);
    case Deliver(Client, at, wire) =>
      if CanSend(w, wire.body) && OpenSpec(w.client, at, wire).1.Plain? {
        AcceptedWasSent(w, w.client, at, wire, w.sentByServer, 0);
        AcceptIsHigher(w.client, at, wire, w.gotByClient);
        var (s, r) := OpenSpec(w.client, at, wire);
        AcceptKeepsOrder(w.gotByClient, w.sentByServer, 0, Note(at, r.plain, s.high));
      }
    case Deliver(Server, at, wire) =>
      if CanSend(w, wire.body) && OpenSpec(w.server, at, wire).1.Plain? {
        AcceptedWasSent(w, w.server, at, wire, w.sentByClient, w.start);
        AcceptIsHigher(w.server, at, wire, w.gotByServer);
        var (s, r) := OpenSpec(w.server, at, wire);
        AcceptKeepsOrder(w.gotByServer, w.sentByClient, w.start, Note(at, r.plain, s.high));
      }
  }

  lemma HighOnly(c: State, s: State, at: Endpoint, plain: Bytes, gotC: seq<Note>, gotS: seq<Note>)
    requires HighOk(c, gotC) && HighOk(s, gotS)
    ensures HighOk(SealSpec(c, at, plain).0, gotC) && HighOk(SealSpec(s, at, plain).0, gotS)
  {
  }

  lemma AcceptIsHigher(me: State, at: Endpoint, wire: Wire, got: seq<Note>)
    requires HighOk(me, got) && OpenSpec(me, at, wire).1.Plain?
    ensures var (s, r) := OpenSpec(me, at, wire);
            && HighOk(s, got + [Note(at, r.plain, s.high)])
            && (got != [] ==> got[|got| - 1].counter < s.high)
            && s.key == me.key && s.send == me.send && s.counter == me.counter
  {
  }

  lemma {:induction false} RunKeepsInv(key: Bytes, start: nat, events: seq<Event>)
    requires start < U64 && NulFreeMethods(events)
    ensures Inv(Run(Begin(key, start), events))
    ensures Run(Begin(key, start), events).start == start && Run(Begin(key, start), events).client.key == key
  {
    hide Step;
    if |events| > 0 {
      var n := |events| - 1;
      RunKeepsInv(key, start, events[..n]);
      StepKeepsInv(Run(Begin(key, start), events[..n]), events[n]);
    }
  }

  // ------------------------------------------------------------ main results

  /** Against a network that drops, reorders, repeats, reflects, redirects and
  forges, each side accepts an in-order, at-most-once part of what the other
  sealed, every message for the endpoint and version it was sealed for. */
  lemma AcceptsAnInOrderPart(key: Bytes, start: nat, events: seq<Event>)
    requires start < U64 && NulFreeMethods(events)
    ensures var w := Run(Begin(key, start), events);
            && InOrderPart(w.gotByServer, w.sentByClient, start)
            && InOrderPart(w.gotByClient, w.sentByServer, 0)
  {
    RunKeepsInv(key, start, events);
  }

  /** One sender's messages carry consecutive counters, whatever they say. */
  ghost predicate Numbered(sent: seq<Note>, start: nat, counter: nat) {
    && counter == start + |sent| < U64
    && (forall i :: 0 <= i < |sent| ==> sent[i].counter == start + i + 1)
  }

  lemma {:induction false} CountersAreConsecutive(key: Bytes, start: nat, events: seq<Event>)
    requires start < U64
    ensures var w := Run(Begin(key, start), events);
            Numbered(w.sentByClient, start, w.client.counter) && Numbered(w.sentByServer, 0, w.server.counter)
  {
    hide Nonce, Aad, BigEndian, FromBytes, CanSend, AeadOpen;
    if |events| > 0 {
      CountersAreConsecutive(key, start, events[..|events| - 1]);
    }
  }

  /** No two messages of a pair are sealed under one nonce, in either direction. */
  lemma NoncesAreNeverReused(key: Bytes, start: nat, events: seq<Event>)
    requires start < U64
    ensures var w := Run(Begin(key, start), events);
            && (forall i, j :: 0 <= i < j < |w.sentByClient| ==>
                  Nonce(ClientToServer, w.sentByClient[i].counter) != Nonce(ClientToServer, w.sentByClient[j].counter))
            && (forall i, j :: 0 <= i < j < |w.sentByServer| ==>
                  Nonce(ServerToClient, w.sentByServer[i].counter) != Nonce(ServerToClient, w.sentByServer[j].counter))
            && (forall i, j :: 0 <= i < |w.sentByClient| && 0 <= j < |w.sentByServer| ==>
                  Nonce(ClientToServer, w.sentByClient[i].counter) != Nonce(ServerToClient, w.sentByServer[j].counter))
  {
    hide Nonce, Run;
    CountersAreConsecutive(key, start, events);
    var w := Run(Begin(key, start), events);
    forall d, c: nat, d', c': nat ensures Nonce(d, c) == Nonce(d', c') <==> d == d' && c % U64 == c' % U64 {
      NonceIsInjective(d, c, d', c');
    }
  }

  /** A message delivered untouched, for its own endpoint and before anything later
  from its sender, is accepted: the refusals cost nothing on an honest network. */
  lemma HonestDeliveryIsAccepted(sender: State, receiver: State, at: Endpoint, plain: Bytes)
    requires sender.key == receiver.key && receiver.send == Opposite(sender.send)
    requires sender.counter < U64 - 1 && (receiver.seenAny ==> receiver.high <= sender.counter)
    ensures var (_, sealed) := SealSpec(sender, at, plain);
            sealed.SealedOk? && OpenSpec(receiver, at, sealed.wire)
                                == (receiver.(high := sender.counter + 1, seenAny := true), Plain(plain))
  {
    hide Nonce, Aad;
    BytesRoundTrip(sender.counter + 1);
    var header := BigEndian(sender.counter + 1, 8);
    assert header[..COUNTER_SIZE] == header;
  }

  // ----------------------------------------------------- the browser's twin

  /** The browser seals without a check for the last counter, which its writer of
  64-bit words wraps. */
  function BrowserSealSpec(e: State, at: Endpoint, plain: Bytes): (State, Wire) {
    var c := e.counter + 1;
    (e.(counter := c), Wire(BigEndian(c, 8), Box(e.key, Nonce(e.send, c), Aad(at), plain)))
  }

  datatype BrowserOpened = BrowserPlain(plain: Bytes) | ReplayError | AuthenticationError

  function BrowserOpenSpec(e: State, at: Endpoint, w: Wire): (State, BrowserOpened) {
    if |w.header| < COUNTER_SIZE then (e, AuthenticationError)
    else
      var c := FromBytes(w.header[..COUNTER_SIZE]);
      if c == 0 then (e, AuthenticationError)
      else if e.seenAny && c <= e.high then (e, ReplayError)
      else
        match AeadOpen(e.key, Nonce(Opposite(e.send), c), Aad(at), w.body)
        case None => (e, AuthenticationError)
        case Some(plain) => (e.(high := c, seenAny := true), BrowserPlain(plain))
  }

  /** Both implementations seal the same bytes until the counters run out, accept
  the same messages with the same effect, and call the same messages replays but
  for one: a zero counter after anything was accepted. */
  lemma TwinsAgree(e: State, at: Endpoint, plain: Bytes, w: Wire)
    ensures e.counter < U64 - 1 ==>
              SealSpec(e, at, plain) == (BrowserSealSpec(e, at, plain).0, SealedOk(BrowserSealSpec(e, at, plain).1))
    ensures var (s, r) := OpenSpec(e, at, w); var (s', r') := BrowserOpenSpec(e, at, w);
            && s == s'
            && (r.Plain? <==> r'.BrowserPlain?) && (r.Plain? ==> r.plain == r'.plain)
            && (r.Replay? != r'.ReplayError? <==>
                  |w.header| >= COUNTER_SIZE && FromBytes(w.header[..COUNTER_SIZE]) == 0 && e.seenAny)
  {
  }

  /** The state of the browser's envelope after sealing some messages, and what it sent. */
  function BrowserSealAll(e: State, messages: seq<(Endpoint, Bytes)>): (State, seq<Wire>) {
    if |messages| == 0 then (e, [])
    else
      var (before, wires) := BrowserSealAll(e, messages[..|messages| - 1]);
      var (at, plain) := messages[|messages| - 1];
      var (after, wire) := BrowserSealSpec(before, at, plain);
      (after, wires + [wire])
  }

  /** The i-th message, counted from zero, is sealed under the counter start + i + 1. */
  lemma {:induction false} BrowserCounters(e: State, messages: seq<(Endpoint, Bytes)>)
    ensures var (after, wires) := BrowserSealAll(e, messages);
            && after == e.(counter := e.counter + |messages|)
            && |wires| == |messages|
            && forall i :: 0 <= i < |messages| ==>
                 && wires[i].header == BigEndian(e.counter + i + 1, 8)
                 && wires[i].body == Box(e.key, Nonce(e.send, e.counter + i + 1), Aad(messages[i].0), messages[i].1)
  {
    hide Nonce, Aad, BigEndian, BrowserSealAll;
    if |messages| == 0 {
      NothingSealed(e);
    } else {
      var n := |messages| - 1;
      BrowserCounters(e, messages[..n]);
      OneMoreSealed(e, messages);
    }
  }

  lemma NothingSealed(e: State)
    ensures BrowserSealAll(e, []) == (e, [])
  {
  }

  lemma OneMoreSealed(e: State, messages: seq<(Endpoint, Bytes)>)
    requires |messages| > 0
    ensures var n := |messages| - 1;
            var (before, wires) := BrowserSealAll(e, messages[..n]);
            var (after, wire) := BrowserSealSpec(before, messages[n].0, messages[n].1);
            BrowserSealAll(e, messages) == (after, wires + [wire])
  {
  }

  /** A counter's nonce comes back after 2^64 messages and not before. */
  lemma NoncesDiffer(d: Direction, c: nat, c': nat)
    requires c < c' <= c + U64
    ensures Nonce(d, c) != Nonce(d, c') <==> c' < c + U64
  {
    hide Nonce;
    NonceIsInjective(d, c, d, c');
  }

  /** The messages sealed by one browser envelope, whatever they say, have different
  nonces exactly when there are at most 2^64 of them. */
  lemma BrowserReusesNonceIff(e: State, messages: seq<(Endpoint, Bytes)>)
    ensures var wires := BrowserSealAll(e, messages).1;
            && |wires| == |messages|
            && (forall i :: 0 <= i < |wires| ==> wires[i].body.Box?)
            && ((forall i, j :: 0 <= i < j < |wires| ==> wires[i].body.nonce != wires[j].body.nonce)
                <==> |messages| <= U64)
  {
    hide Nonce, Aad, BigEndian, BrowserSealAll;
    BrowserCounters(e, messages);
    var wires := BrowserSealAll(e, messages).1;
    forall i, j | 0 <= i < j < |wires| && |messages| <= U64 ensures wires[i].body.nonce != wires[j].body.nonce {
      NoncesDiffer(e.send, e.counter + i + 1, e.counter + j + 1);
    }
    if |messages| > U64 {
      NoncesDiffer(e.send, e.counter + 1, e.counter + U64 + 1);
      assert wires[0].body.nonce == wires[U64].body.nonce;
    }
  }

  // ---------------------------------------------------------------- in place

  class Envelope {
    const key: Bytes
    const sendDir: Direction
    const recvDir: Direction
    var sendCounter: nat
    var recvHighWater: nat
    var seenAny: bool

    ghost function View(): State
      reads this
    {
      State(key, sendDir, sendCounter, recvHighWater, seenAny)
    }

    /** The receive direction is implied, so the two never share a space. */
    constructor (key: Bytes, send: Direction, start: nat)
      ensures View() == State(key, send, start, 0, false) && recvDir == Opposite(send)
    {
      this.key := key;
      sendDir := send;
      recvDir := if send == ServerToClient then ClientToServer else ServerToClient;
      sendCounter, recvHighWater, seenAny := start, 0, false;
    }

    method Seal(at: Endpoint, plain: Bytes) returns (r: Sealed)
      modifies this
      ensures (View(), r) == SealSpec(old(View()), at, plain)
    {
      if sendCounter == U64 - 1 { return CounterWrapped; }
      sendCounter := sendCounter + 1;
      var header := BigEndian(sendCounter, 8);
      r := SealedOk(Wire(header, Box(key, Nonce(sendDir, sendCounter), Aad(at), plain)));
    }

    method Open(at: Endpoint, sealed: Wire) returns (r: Opened)
      requires recvDir == Opposite(sendDir)
      modifies this
      ensures (View(), r) == OpenSpec(old(View()), at, sealed)
    {
      if |sealed.header| < COUNTER_SIZE { return Malformed; }
      var counter := FromBytes(sealed.header[..COUNTER_SIZE]);
      if seenAny && counter <= recvHighWater { return Replay; }
      if counter == 0 { return Malformed; }
      var plain := AeadOpen(key, Nonce(recvDir, counter), Aad(at), sealed.body);
      if plain.None? { return AuthFailed; }
      recvHighWater, seenAny := counter, true;
      r := Plain(plain.value);
    }
  }

  /** The browser's class. */
  class BrowserEnvelope {
    const key: Bytes
    const sendDirection: Direction
    const recvDirection: Direction
    var sendCounter: nat
    var recvHighWater: nat
    var seenAny: bool

    ghost function View(): State
      reads this
    {
      State(key, sendDirection, sendCounter, recvHighWater, seenAny)
    }

    constructor (key: Bytes, send: Direction, start: nat)
      ensures View() == State(key, send, start, 0, false) && recvDirection == Opposite(send)
    {
      this.key := key;
      sendDirection := send;
      recvDirection := if send == ServerToClient then ClientToServer else ServerToClient;
      sendCounter, recvHighWater, seenAny := start, 0, false;
    }

    method Seal(at: Endpoint, plain: Bytes) returns (wire: Wire)
      modifies this
      ensures (View(), wire) == BrowserSealSpec(old(View()), at, plain)
    {
      sendCounter := sendCounter + 1;
      var sealed := Box(key, Nonce(sendDirection, sendCounter), Aad(at), plain);
      wire := Wire(BigEndian(sendCounter, 8), sealed);
    }

    method Open(at: Endpoint, sealed: Wire) returns (r: BrowserOpened)
      requires recvDirection == Opposite(sendDirection)
      modifies this
      ensures (View(), r) == BrowserOpenSpec(old(View()), at, sealed)
    {
      if |sealed.header| < COUNTER_SIZE { return AuthenticationError; }
      var counter := FromBytes(sealed.header[..COUNTER_SIZE]);
      if counter == 0 { return AuthenticationError; }
      if seenAny && counter <= recvHighWater { return ReplayError; }
      var plain := AeadOpen(key, Nonce(recvDirection, counter), Aad(at), sealed.body);
      if plain.None? { return AuthenticationError; }
      recvHighWater, seenAny := counter, true;
      r := BrowserPlain(plain.value);
    }
  }

  /** An envelope is made only from a key of the right length. */
  method NewEnvelopeAt(key: Bytes, send: Direction, start: nat) returns (e: Envelope?)
    ensures e != null <==> |key| == KEY_SIZE
    ensures e != null ==> fresh(e) && e.View() == State(key, send, start, 0, false) && e.recvDir == Opposite(send)
  {
    if |key| != KEY_SIZE { return null; }
    e := new Envelope(key, send, start);
  }
}
