/**
The sending loop of a page, composed with the computer it sends to.

The computer is a value that the loop's environment steps; `Incoming` proves that the
running computer makes exactly these steps.
*/
module Sender {
  import opened Common
  import opened Staging
  import opened Upload
  import opened Resume

  /** What may happen to the item behind the page's back before a request lands: a
  restart, a chunk or a completion from another page, a download, a cancel. */
  datatype Disturbance =
    | Restarted(tail: seq<Byte>)
    | Foreign(chunk: Chunk, opening: Opening)
    | Fetched(offset: nat, written: nat, broken: bool)
    | Concluded(expected: Option<Digest>, opening: Opening, placing: Placing)
    | Cancelled(removes: bool)

  /** One request of the loop: what happens first, what the network and the disk do
  while it is served, and whether the page ever hears the answer. */
  datatype Exchange = Exchange(before: seq<Disturbance>, turns: seq<Turn>, syncs: bool, opening: Opening, lost: bool)

  /** The request that ends an item, likewise. */
  datatype Last = Last(before: seq<Disturbance>, opening: Opening, placing: Placing, lost: bool)

  /** What one pass meets: whether its first question is answered, its chunk requests, and
  the last request. */
  datatype Network = Network(answers: bool, exchanges: nat -> Exchange, last: Last)

  function Disturb(it: Item, d: Disturbance): Item {
    match d
    case Restarted(tail) => it.(part := Survives(it.part, tail), sink := None)
    case Foreign(chunk, opening) => ReceiveItem(it, chunk, opening).0
    case Fetched(offset, written, broken) => FetchItem(it, offset, written, broken)
    case Concluded(expected, opening, placing) => FinishItem(it, expected, opening, placing).0
    case Cancelled(removes) => it.(part := Left(it.part, removes), sink := None, ended := true)
  }

  function DisturbAll(it: Item, ds: seq<Disturbance>): Item
    decreases |ds|
  {
    if ds == [] then it else DisturbAll(Disturb(it, ds[0]), ds[1..])
  }

  /** Where the computer would let the next chunk start. */
  function ResumesAt(it: Item): nat {
    if it.sink.Some? then it.sink.value.committed else it.stored
  }

  /** What neither the record nor the computer's next correction ever falls below. */
  function Ground(it: Item): nat {
    Min(it.stored, ResumesAt(it))
  }

  /** How many of the first `n` exchanges were disturbed. */
  ghost function Disturbed(net: nat -> Exchange, n: nat): nat {
    if n == 0 then 0 else Disturbed(net, n - 1) + if net(n - 1).before == [] then 0 else 1
  }

  // ------------------------------------------------------------ one request

  /** The hash of an open sink stays in step and the ground never sinks. */
  ghost predicate Forward(it: Item, next: Item) {
    Steady(next) && next.size == it.size && it.stored <= next.stored && Ground(it) <= Ground(next)
  }

  lemma ReceiveGoesForward(it: Item, c: Chunk, env: Opening)
    requires Steady(it)
    ensures Forward(it, ReceiveItem(it, c, env).0)
  {
    hide CopySpec;
    OpenIsSteady(it, env);
    var (open, ok) := WithSink(it, env);
    if !it.ended && ok {
      AppendKeepsStep(open.part.value, open.sink.value, c, it.size);
    }
  }

  lemma DisturbGoesForward(it: Item, d: Disturbance)
    requires Steady(it)
    ensures Forward(it, Disturb(it, d))
  {
    hide CopySpec, ReceiveItem;
    match d
    case Foreign(chunk, opening) => ReceiveGoesForward(it, chunk, opening);
    case Concluded(expected, opening, placing) => OpenIsSteady(it, opening);
    case _ =>
  }

  lemma {:induction false} DisturbedGoesForward(it: Item, ds: seq<Disturbance>)
    requires Steady(it)
    ensures Forward(it, DisturbAll(it, ds))
    decreases |ds|
  {
    hide Disturb, Steady;
    if ds != [] {
      DisturbGoesForward(it, ds[0]);
      DisturbedGoesForward(Disturb(it, ds[0]), ds[1..]);
    }
  }

  /** What an answer tells the page. An accepted chunk started where the computer
  resumes and arrived whole; a correction names where it resumes instead. Either way
  the page then stands on the ground. */
  lemma AnswerIsTrue(it: Item, c: Chunk, env: Opening)
    requires Steady(it) && it.size < U64 / 2
    requires c.offset + |c.body| <= it.size
    ensures var (next, reply) := ReceiveItem(it, c, env);
            && (!reply.Refused? ==> reply.committed == ResumesAt(next) == Ground(next) <= it.size)
            && (reply.Accepted? ==> c.offset == ResumesAt(it) && reply.committed == c.offset + |c.body|)
            && (reply.Corrected? ==> c.offset != ResumesAt(it) == reply.committed)
  {
    hide AppendSpec, OpenSpec;
    OpenIsSteady(it, env);
    var (open, ok) := WithSink(it, env);
    if !it.ended && ok {
      AppendKeepsStep(open.part.value, open.sink.value, c, it.size);
      AppendIsWhole(open.part.value, open.sink.value, c, it.size);
    }
  }

  /** Feeds the first `length` bytes of the file to a new hash, chunk by chunk. */
  method HashPrefix(source: seq<Byte>, length: nat) returns (hashed: seq<Byte>)
    requires length <= |source|
    ensures hashed == source[..length]
  {
    hashed := [];
    var at := 0;
    while at < length
      invariant hashed == source[..Min(at, length)]
    {
      var end := Min(at + CHUNK_BYTES, length);
      assert source[..at] + source[at..end] == source[..end];
      hashed := hashed + source[at..end];
      at := at + CHUNK_BYTES;
    }
  }

  lemma SteadyItemHolds(it: Item, source: seq<Byte>)
    requires Steady(it) && it.size == |source| && Sendable(source)
    ensures it.stored <= it.size < U64 / 2
  {
  }

  /** Without downloads the record never runs ahead of an open sink. */
  lemma SoundItemStandsFirm(it: Item)
    ensures SoundItem(it) ==> Ground(it) == it.stored
  {
  }

  /** One round: what happened before the request, then the request and its answer. A
  page that stood on the ground moves forward with every answer. */
  lemma OneExchange(it: Item, e: Exchange, c: Chunk, source: seq<Byte>)
    requires Steady(it) && it.size == |source| && Sendable(source)
    requires c.offset < |source| && c.body == source[c.offset..ChunkEnd(c.offset, |source|)]
    ensures var at := DisturbAll(it, e.before); var (next, reply) := ReceiveItem(at, c, e.opening);
            && Forward(it, next)
            && (!reply.Refused? ==> Ground(it) <= reply.committed == ResumesAt(next) == Ground(next) <= |source|)
            && (!reply.Refused? && c.offset <= Ground(it) ==> c.offset < reply.committed)
            && (reply.Accepted? ==> reply.committed == ChunkEnd(c.offset, |source|) > c.offset)
            && (reply.Corrected? && c.offset == ResumesAt(it) ==> e.before != [])
  {
    hide CopySpec, ReceiveItem, Steady;
    SteadyItemHolds(it, source);
    DisturbedGoesForward(it, e.before);
    var at := DisturbAll(it, e.before);
    ReceiveGoesForward(at, c, e.opening);
    AnswerIsTrue(at, c, e.opening);
  }

  // --------------------------------------------------------- with the source

  /** Nobody downloads the item or completes it under another digest. */
  predicate Loyal(d: Disturbance, source: seq<Byte>) {
    !d.Fetched? && (d.Concluded? ==> d.expected == Some(Digest(source)))
  }

  ghost predicate LoyalNetwork(net: Network, source: seq<Byte>) {
    && (forall i, d :: d in net.exchanges(i).before ==> Loyal(d, source))
    && (forall d <- net.last.before :: Loyal(d, source))
  }

  /** What holds of an item that only its source can fill. */
  ghost predicate Genuine(it: Item, source: seq<Byte>) {
    SoundItem(it) && it.size == |source| && Good(it, source)
  }

  lemma ReceiveKeepsGenuine(it: Item, c: Chunk, env: Opening, source: seq<Byte>)
    requires Genuine(it, source)
    ensures Genuine(ReceiveItem(it, c, env).0, source)
  {
    hide CopySpec;
    OpenIsSound(it, env);
    var (open, ok) := WithSink(it, env);
    if !it.ended && ok {
      AppendKeepsStep(open.part.value, open.sink.value, c, it.size);
    }
  }

  lemma FinishKeepsGenuine(it: Item, env: Opening, placing: Placing, source: seq<Byte>)
    requires Genuine(it, source)
    ensures var (next, result) := FinishItem(it, Some(Digest(source)), env, placing);
            Genuine(next, source) && (result == Finished ==> next.placed == Some(source))
  {
    OpenIsSound(it, env);
  }

  lemma {:induction false} DisturbedStaysGenuine(it: Item, ds: seq<Disturbance>, source: seq<Byte>)
    requires Genuine(it, source) && forall d <- ds :: Loyal(d, source)
    ensures Genuine(DisturbAll(it, ds), source)
    decreases |ds|
  {
    hide ReceiveItem, FinishItem;
    if ds != [] {
      match ds[0] {
        case Foreign(chunk, opening) => ReceiveKeepsGenuine(it, chunk, opening, source);
        case Concluded(expected, opening, placing) => FinishKeepsGenuine(it, opening, placing, source);
        case _ =>
      }
      assert Loyal(ds[0], source);
      DisturbedStaysGenuine(Disturb(it, ds[0]), ds[1..], source);
    }
  }

  lemma RoundStaysGenuine(it: Item, e: Exchange, c: Chunk, source: seq<Byte>)
    requires Genuine(it, source) && forall d <- e.before :: Loyal(d, source)
    ensures Genuine(ReceiveItem(DisturbAll(it, e.before), c, e.opening).0, source)
  {
    hide Genuine, ReceiveItem;
    DisturbedStaysGenuine(it, e.before, source);
    ReceiveKeepsGenuine(DisturbAll(it, e.before), c, e.opening, source);
  }

  // --------------------------------------------- when nothing is in the way

  /** An item in progress, or completed, on which nothing was ever lost. */
  ghost predicate Ready(it: Item, source: seq<Byte>) {
    Exact(it, source) && Genuine(it, source) && !it.ended
  }

  /** A file system that verifies and places what it is given. */
  predicate Works(p: Placing) {
    p.resolves && p.syncs && p.closes && p.makesDir && (p.renames || (p.copies && p.removes)) && p.permits
  }

  /** Restarts, chunks of the source on a disk that takes them, and completions under its
  digest. */
  ghost predicate Honest(d: Disturbance, source: seq<Byte>) {
    match d
    case Restarted(_) => true
    case Foreign(c, _) =>
      && c.syncs && AllWrite(c.turns) && c.offset < |source| && c.offset + |c.body| <= |source|
      && c.body == source[c.offset..c.offset + |c.body|]
    case Concluded(expected, _, placing) => expected == Some(Digest(source)) && Works(placing)
    case _ => false
  }

  ghost predicate HonestExchange(e: Exchange, source: seq<Byte>) {
    AllWrite(e.turns) && e.syncs && forall d <- e.before :: Honest(d, source)
  }

  ghost predicate HonestNetwork(net: Network, source: seq<Byte>) {
    && (forall i :: HonestExchange(net.exchanges(i), source))
    && (forall d <- net.last.before :: Honest(d, source)) && Works(net.last.placing)
  }

  /** The request arrives at once, its body is read, written and synced, and its answer
  is heard. */
  ghost predicate Calm(e: Exchange) {
    e.before == [] && Flows(e.turns, CHUNK_BYTES) && e.syncs && e.opening == ALL_OPEN && !e.lost
  }

  ghost predicate CalmNetwork(net: Network) {
    && net.answers && (forall i :: Calm(net.exchanges(i)))
    && net.last.before == [] && net.last.opening == ALL_OPEN && Works(net.last.placing) && !net.last.lost
  }

  lemma CalmIsHonest(net: Network, source: seq<Byte>)
    requires CalmNetwork(net)
    ensures HonestNetwork(net, source)
  {
    forall i ensures HonestExchange(net.exchanges(i), source) {
      CalmExchangeIsHonest(net.exchanges(i), source);
    }
  }

  lemma CalmExchangeIsHonest(e: Exchange, source: seq<Byte>)
    requires Calm(e)
    ensures HonestExchange(e, source)
  {
  }

  /** Recording an acknowledged offset leaves an exact item exact. */
  lemma AdvanceIsExact(it: Item, committed: nat, source: seq<Byte>)
    requires Exact(it, source) && it.sink.Some? && committed == it.sink.value.committed
    ensures Exact(Advance(it, committed), source)
  {
    if !it.completed { LevelIsBacked(it.part.value, it.sink.value, Advance(it, committed).stored, source); }
  }

  lemma HonestChunkStaysReady(it: Item, c: Chunk, env: Opening, source: seq<Byte>)
    requires Ready(it, source) && Sendable(source)
    requires c.syncs && AllWrite(c.turns) && c.offset < |source| && c.offset + |c.body| <= |source|
    requires c.body == source[c.offset..c.offset + |c.body|]
    ensures Ready(ReceiveItem(it, c, env).0, source)
  {
    ReceiveKeepsGenuine(it, c, env, source);
    AppendIsExact(it, c, env, source, c.offset + |c.body|);
    var (next, job) := AppendTo(it, c, env);
    if job.Some? { AdvanceIsExact(next, job.value.committed, source); }
    hide AppendTo, Exact, Genuine;
  }

  lemma HonestFinishStaysReady(it: Item, env: Opening, placing: Placing, source: seq<Byte>)
    requires Ready(it, source) && Works(placing)
    ensures var (next, result) := FinishItem(it, Some(Digest(source)), env, placing);
            && Ready(next, source) && next.stored == it.stored
            && (env == ALL_OPEN && it.stored == |source| ==> result == Finished)
  {
    FinishKeepsGenuine(it, env, placing, source);
    DigestVerifies(it, source, env, placing, source);
    OpenIsExact(it, env, source);
    assert source[..|source|] == source;
  }

  lemma RestartStaysReady(it: Item, tail: seq<Byte>, source: seq<Byte>)
    requires Ready(it, source)
    ensures Ready(Disturb(it, Restarted(tail)), source)
  {
    RestartedIsExact(it, PowerCut(tail), source);
  }

  lemma {:induction false} HonestDisturbancesStayReady(it: Item, ds: seq<Disturbance>, source: seq<Byte>)
    requires Ready(it, source) && Sendable(source) && forall d <- ds :: Honest(d, source)
    ensures Ready(DisturbAll(it, ds), source)
    decreases |ds|
  {
    hide Ready, ReceiveItem, FinishItem, Works, Sendable, AllWrite;
    if ds != [] {
      assert Honest(ds[0], source);
      match ds[0] {
        case Restarted(tail) => RestartStaysReady(it, tail, source);
        case Foreign(chunk, opening) => HonestChunkStaysReady(it, chunk, opening, source);
        case Concluded(expected, opening, placing) => HonestFinishStaysReady(it, opening, placing, source);
      }
      HonestDisturbancesStayReady(Disturb(it, ds[0]), ds[1..], source);
    }
  }

  /** A chunk that the connection delivers and the disk takes is answered. */
  lemma CalmChunkIsAnswered(it: Item, c: Chunk, source: seq<Byte>)
    requires Ready(it, source) && Sendable(source) && !it.completed && c.offset <= |source|
    requires c.offset + |c.body| <= |source| && c.syncs && Flows(c.turns, |c.body|)
    ensures var (next, reply) := ReceiveItem(it, c, ALL_OPEN); !reply.Refused? && !next.completed
  {
    hide AppendSpec, OpenSpec, Flows;
    ExactOpens(it, source);
    var open := WithSink(it, ALL_OPEN).0;
    AppendAnswers(open.part.value, open.sink.value, c, it.size);
    if c.offset == open.sink.value.committed {
      AppendTakesAll(open.part.value, open.sink.value, c, it.size);
    }
  }

  lemma ExactOpens(it: Item, source: seq<Byte>)
    requires Exact(it, source) && !it.ended && !it.completed
    ensures var (open, ok) := WithSink(it, ALL_OPEN);
            ok && open.part.Some? && open.sink.Some? && !open.sink.value.closed
            && open.sink.value.committed <= it.size
            && open.stored == it.stored && open.size == it.size && open.completed == it.completed
  {
    OpenIsExact(it, ALL_OPEN, source);
  }

  lemma ReadyIsWhole(it: Item, source: seq<Byte>)
    requires Ready(it, source)
    ensures Genuine(it, source) && Steady(it) && SoundItem(it) && (it.completed ==> it.stored == |source|)
  {
  }

  /** One round of an honest network, and of a calm one. */
  lemma HonestRound(it: Item, e: Exchange, c: Chunk, source: seq<Byte>)
    requires Ready(it, source) && Sendable(source)
    requires HonestExchange(e, source) && c.offset < |source|
    requires c == Chunk(c.offset, source[c.offset..ChunkEnd(c.offset, |source|)], e.turns, e.syncs)
    ensures var (next, reply) := ReceiveItem(DisturbAll(it, e.before), c, e.opening);
            && Ready(next, source)
            && (Calm(e) && !it.completed ==> !reply.Refused? && !next.completed)
  {
    hide Ready, ReceiveItem, Sendable;
    HonestDisturbancesStayReady(it, e.before, source);
    HonestChunkStaysReady(DisturbAll(it, e.before), c, e.opening, source);
    if Calm(e) && !it.completed { CalmChunkIsAnswered(it, c, source); }
  }

  // ---------------------------------------------------------------- the loop

  datatype Sent = Posted(digest: Digest) | Threw

  /** How far a page has come from `start` with so many chunks, all but the last full. */
  predicate Paced(offset: nat, size: nat, chunks: int, start: nat) {
    (chunks - 1) * CHUNK_BYTES < size - start && (offset < size ==> chunks * CHUNK_BYTES <= offset - start)
  }

  /** Where the page stands after some rounds and corrections. */
  ghost predicate Tallied(computer: Item, it: Item, offset: nat, corrections: nat, rounds: nat, net: nat -> Exchange) {
    && Ground(computer) <= offset
    && (rounds > 0 || Ground(computer) == computer.stored ==> offset <= Ground(it))
    && rounds <= offset - Ground(computer) + (if Ground(computer) < computer.stored then 1 else 0)
    && corrections + (if offset == ResumesAt(it) then 0 else 1) <= 1 + Disturbed(net, rounds)
  }

  /** What an answer means to a page that asked at this offset. */
  ghost predicate Answers(answer: Reply, before: Item, it: Item, offset: nat, size: nat, exchange: Exchange)
    requires !answer.Refused?
  {
    && Ground(before) <= answer.committed == ResumesAt(it) == Ground(it) <= size
    && (offset <= Ground(before) ==> offset < answer.committed)
    && (answer.Accepted? ==> answer.committed == ChunkEnd(offset, size))
    && (answer.Corrected? && offset == ResumesAt(before) ==> exchange.before != [])
  }

  lemma StartIsTallied(computer: Item, net: nat -> Exchange)
    ensures Tallied(computer, computer, computer.stored, 0, 0, net)
  {
  }

  lemma TallyStep(computer: Item, before: Item, it: Item, offset: nat, corrections: nat, rounds: nat,
                  net: nat -> Exchange, answer: Reply, size: nat)
    requires Tallied(computer, before, offset, corrections, rounds, net) && Ground(computer) <= Ground(before)
    requires !answer.Refused? && Answers(answer, before, it, offset, size, net(rounds)) && offset < size
    ensures Tallied(computer, it, answer.committed, if answer.Corrected? then corrections + 1 else corrections,
                    rounds + 1, net)
    ensures answer.committed <= Ground(it) && answer.committed <= size
    ensures offset <= Ground(before) ==> offset < answer.committed
    ensures answer.Accepted? ==> answer.committed == ChunkEnd(offset, size)
  {
  }

  lemma TallyMeans(computer: Item, it: Item, offset: nat, corrections: nat, rounds: nat, net: nat -> Exchange)
    requires Tallied(computer, it, offset, corrections, rounds, net)
    ensures rounds <= offset - Ground(computer) + (if Ground(computer) < computer.stored then 1 else 0)
    ensures corrections <= 1 + Disturbed(net, rounds) <= 1 + Disturbed(net, rounds + 1)
    ensures rounds > 0 || Ground(computer) == computer.stored ==> offset <= Ground(it)
  {
  }

  lemma PacedStart(offset: nat, size: nat)
    requires offset <= size
    ensures Paced(offset, size, 0, offset)
  {
  }

  lemma PacedMeans(offset: nat, size: nat, chunks: int, start: nat)
    requires Paced(offset, size, chunks, start)
    ensures (chunks - 1) * CHUNK_BYTES < size - start
  {
  }

  lemma NetworkAt(net: Network, source: seq<Byte>, i: nat)
    ensures LoyalNetwork(net, source) ==> forall d <- net.exchanges(i).before :: Loyal(d, source)
    ensures HonestNetwork(net, source) ==> HonestExchange(net.exchanges(i), source)
    ensures CalmNetwork(net) ==> Calm(net.exchanges(i))
  {
    hide Loyal, HonestExchange, Calm;
  }

  lemma NetworkLast(net: Network, source: seq<Byte>)
    ensures LoyalNetwork(net, source) ==> forall d <- net.last.before :: Loyal(d, source)
    ensures HonestNetwork(net, source) ==> (forall d <- net.last.before :: Honest(d, source)) && Works(net.last.placing)
    ensures CalmNetwork(net) ==> net.answers && net.last.opening == ALL_OPEN && !net.last.lost
  {
    hide Loyal, Honest, HonestExchange, Calm;
  }

  /** What the page makes of an answer is what a page of the protocol makes of it. */
  lemma PageHears(source: seq<Byte>, offset: nat, hashed: seq<Byte>, answer: Reply)
    requires offset < |source| && hashed == source[..offset] && !answer.Refused? && answer.committed <= |source|
    requires answer.Accepted? ==> answer.committed == ChunkEnd(offset, |source|)
    ensures var end := ChunkEnd(offset, |source|);
            && hashed + source[offset..end] == source[..end]
            && Heard(Page(offset, hashed, None), answer, Request(offset, end), source)
               == Some(Page(answer.committed, source[..answer.committed], None))
  {
    assert source[..offset] + source[offset..ChunkEnd(offset, |source|)] == source[..ChunkEnd(offset, |source|)];
  }

  lemma GroundIsRecorded(it: Item)
    ensures Ground(it) <= it.stored
  {
  }

  lemma PacedStep(offset: nat, size: nat, chunks: int, start: nat, next: nat)
    requires Paced(offset, size, chunks, start) && offset < size
    ensures next == ChunkEnd(offset, size) ==> Paced(next, size, chunks + 1, start)
    ensures offset <= next ==> Paced(next, size, chunks, start)
  {
  }

  /** A restart behind the page's back can leave any file that begins with what was durable. */
  lemma RestartsLeaveAnything(it: Item, p: Part, q: seq<Byte>)
    requires it.part == Some(p) && p.durable <= |p.bytes| && p.durable <= |q|
    requires q[..p.durable] == p.bytes[..p.durable]
    ensures Disturb(it, Restarted(q[p.durable..])) == it.(part := Some(Part(q, p.durable)), sink := None)
  {
    PowerCutsLeaveAnything(p, q);
  }

  /** Once the transfer was cancelled, chunks are refused and an item that was not completed
  cannot be finished. */
  lemma CancelledIsOver(it: Item, removes: bool, c: Chunk, expected: Option<Digest>, env: Opening, placing: Placing)
    ensures var over := DisturbAll(it, [Cancelled(removes)]);
            && over.part == (if removes then None else it.part) && over.sink == None && over.placed == it.placed
            && ReceiveItem(over, c, env) == (over, Refused)
            && FinishItem(over, expected, env, placing) == (over, if it.completed then Finished else NotThere)
  {
    assert [Cancelled(removes)][1..] == [];
    assert DisturbAll(it, [Cancelled(removes)]) == DisturbAll(Disturb(it, Cancelled(removes)), []);
  }

  /** One chunk request, up to its answer; a request that is lost has none. */
  method PostChunk(source: seq<Byte>, computer: Item, offset: nat, exchange: Exchange)
    returns (answer: Reply, it: Item)
    requires Steady(computer) && computer.size == |source| && Sendable(source) && offset < |source|
    ensures Forward(computer, it)
    ensures !answer.Refused? ==> Answers(answer, computer, it, offset, |source|, exchange)
    ensures Genuine(computer, source) && (forall d <- exchange.before :: Loyal(d, source)) ==> Genuine(it, source)
    ensures Ready(computer, source) && HonestExchange(exchange, source) ==> Ready(it, source)
    ensures Ready(computer, source) && Calm(exchange) && !computer.completed ==> !answer.Refused? && !it.completed
  {
    hide Steady, Genuine, Loyal, Ready, Honest, Flows, ReceiveItem, DisturbAll, CopySpec, Sendable, AllWrite;
    var chunk := Chunk(offset, source[offset..ChunkEnd(offset, |source|)], exchange.turns, exchange.syncs);
    OneExchange(computer, exchange, chunk, source);
    if Genuine(computer, source) && forall d <- exchange.before :: Loyal(d, source) {
      RoundStaysGenuine(computer, exchange, chunk, source);
    }
    if Ready(computer, source) && Calm(exchange) { CalmExchangeIsHonest(exchange, source); }
    if Ready(computer, source) && HonestExchange(exchange, source) {
      HonestRound(computer, exchange, chunk, source);
    }
    it := DisturbAll(computer, exchange.before);
    var (next, reply) := ReceiveItem(it, chunk, exchange.opening);
    it, answer := next, if exchange.lost then Refused else reply;
  }

  /** The sending loop and the request that ends it. Against every network it ends: an
  answer always moves a page that stands on the ground forward, so there are at most as
  many rounds as bytes are missing, and one more when downloads took the record past
  the open sink. The page is corrected at most once at the start and once more per
  disturbed exchange. When it is told that all is well the digest of the whole source
  was posted and the item is completed, with the source in its place if no download and
  no other digest interfered. An honest network leaves the item ready for the next pass,
  and over a calm one the page is told that all is well, with no more chunks than the
  missing bytes fill. */
  method SendItem(source: seq<Byte>, computer: Item, net: Network)
    returns (sent: Sent, it: Item, corrections: nat, rounds: nat)
    requires Steady(computer) && computer.size == |source| && Sendable(source)
    ensures Steady(it) && it.size == |source| && computer.stored <= it.stored
    ensures sent.Posted? ==> sent.digest == Digest(source) && it.completed
    ensures Genuine(computer, source) && LoyalNetwork(net, source) ==>
              Genuine(it, source) && (sent.Posted? ==> it.placed == Some(source))
    ensures rounds <= |source| - Ground(computer) + (if Ground(computer) < computer.stored then 1 else 0)
    ensures SoundItem(computer) ==> rounds <= |source| - computer.stored
    ensures corrections <= 1 + Disturbed(net.exchanges, rounds)
    ensures Ready(computer, source) && HonestNetwork(net, source) ==> Ready(it, source)
    ensures Ready(computer, source) && CalmNetwork(net) ==>
              sent.Posted? && (rounds - corrections - 1) * CHUNK_BYTES < |source| - computer.stored
  {
    hide Steady, SoundItem, Genuine, Loyal, Ready, Honest, HonestExchange, Calm, Works, Flows, CopySpec, Sendable,
         Ground, ResumesAt, Disturbed, Answers, Paced, Tallied, Heard, LoyalNetwork, HonestNetwork, CalmNetwork;
    NetworkLast(net, source);
    it, corrections, rounds := computer, 0, 0;
    SteadyItemHolds(it, source);
    SoundItemStandsFirm(computer);
    ghost var calm := Ready(computer, source) && CalmNetwork(net);
    if calm { CalmIsHonest(net, source); }
    if Ready(computer, source) { ReadyIsWhole(computer, source); }
    var offset: nat := it.stored;
    StartIsTallied(computer, net.exchanges);
    TallyMeans(computer, computer, offset, 0, 0, net.exchanges);
    if !net.answers {
      return Threw, it, corrections, rounds;
    }
    PacedStart(offset, |source|);
    var hashed := HashPrefix(source, offset);
    while offset < |source|
      invariant Forward(computer, it) && Steady(it)
      invariant offset <= |source| && hashed == source[..offset]
      invariant Tallied(computer, it, offset, corrections, rounds, net.exchanges)
      invariant Genuine(computer, source) && LoyalNetwork(net, source) ==> Genuine(it, source)
      invariant Ready(computer, source) && HonestNetwork(net, source) ==> Ready(it, source)
      invariant calm && it.completed ==> offset == |source|
      invariant calm ==> Paced(offset, |source|, rounds - corrections, computer.stored) && offset <= Ground(it)
      decreases if offset <= Ground(it) then 0 else 1, |source| - offset
    {
      var before, answer := it, Reply.Refused;
      NetworkAt(net, source, rounds);
      answer, it := PostChunk(source, before, offset, net.exchanges(rounds));
      TallyMeans(computer, before, offset, corrections, rounds, net.exchanges);
      if answer.Refused? {
        return Threw, it, corrections, rounds + 1;
      }
      TallyStep(computer, before, it, offset, corrections, rounds, net.exchanges, answer, |source|);
      if calm { PacedStep(offset, |source|, rounds - corrections, computer.stored, answer.committed); }
      rounds := rounds + 1;
      PageHears(source, offset, hashed, answer);
      match answer {
        case Corrected(c) =>
          offset := c;
          hashed := HashPrefix(source, offset);
          corrections := corrections + 1;
        case Accepted(c) =>
          hashed := hashed + source[offset..ChunkEnd(offset, |source|)];
          offset := c;
      }
    }
    assert source[..|source|] == source;
    SteadyItemHolds(it, source);
    TallyMeans(computer, it, offset, corrections, rounds, net.exchanges);
    if calm { PacedMeans(offset, |source|, rounds - corrections, computer.stored); }
    if Ready(computer, source) && HonestNetwork(net, source) { GroundIsRecorded(it); }
    sent, it := Finish(source, Digest(hashed), it, net.last);
  }

  /** The last request: whatever happened before it, and whether its answer came. */
  method Finish(source: seq<Byte>, digest: Digest, computer: Item, last: Last) returns (sent: Sent, it: Item)
    requires Steady(computer) && computer.size == |source| && digest == Digest(source) && Sendable(source)
    ensures Forward(computer, it)
    ensures sent.Posted? ==> sent.digest == digest && it.completed
    ensures Genuine(computer, source) && (forall d <- last.before :: Loyal(d, source)) ==>
              Genuine(it, source) && (sent.Posted? ==> it.placed == Some(source))
    ensures Ready(computer, source) && (forall d <- last.before :: Honest(d, source)) && Works(last.placing) ==>
              Ready(it, source)
              && (computer.stored == |source| && last.opening == ALL_OPEN && !last.lost ==> sent.Posted?)
  {
    hide CopySpec, Loyal, Honest, Works, Ready, Exact;
    DisturbedGoesForward(computer, last.before);
    it := DisturbAll(computer, last.before);
    DisturbGoesForward(it, Concluded(Some(digest), last.opening, last.placing));
    if Genuine(computer, source) && forall d <- last.before :: Loyal(d, source) {
      DisturbedStaysGenuine(computer, last.before, source);
      FinishKeepsGenuine(it, last.opening, last.placing, source);
    }
    if Ready(computer, source) && (forall d <- last.before :: Honest(d, source)) && Works(last.placing) {
      HonestDisturbancesStayReady(computer, last.before, source);
      HonestFinishStaysReady(it, last.opening, last.placing, source);
    }
    var (next, result) := FinishItem(it, Some(digest), last.opening, last.placing);
    it := next;
    sent := if last.lost || result != Finished then Threw else Posted(digest);
  }
}
