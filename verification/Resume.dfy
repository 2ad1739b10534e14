/**
Pages that resume: what holds when the disk takes every write and sync, while
requests drop midway, replies vanish, calls overlap and the computer crashes between
any two steps, losing what was not synced.

A page is one pass through the sending loop: it asks where the item stands, rebuilds
its hash over that prefix, and pushes chunks until it can post a digest.
*/
module Resume {
  import opened Common
  import opened Staging
  import opened Upload

  const CHUNK_BYTES: nat := 0x40_0000

  /** A request in flight carries the source from `offset` up to `end`. */
  datatype Request = Request(offset: nat, end: nat)

  /** A page inside the sending loop; `waiting` is the call it has not heard from. */
  datatype Page = Page(offset: nat, hashed: seq<Byte>, waiting: Option<nat>)

  datatype System = System(server: Server, requests: map<nat, Request>, pages: map<nat, Page>)

  datatype Event =
    | Ask(page: nat)
    | Post(page: nat, call: nat)
    | Deliver(call: nat, turns: seq<Turn>, opening: Opening)
    | Note(call: nat)
    | Hear(page: nat)
    | Quit(page: nat)
    | Complete(page: nat, env: Opening, placing: Placing)
    | Fetch(offset: nat, written: nat, broken: bool)
    | PowerCut(tail: seq<Byte>)
    | Restart

  /** How far the next chunk of a page reaches. */
  function ChunkEnd(offset: nat, size: nat): nat {
    Min(offset + CHUNK_BYTES, size)
  }

  function Heard(p: Page, r: Reply, sent: Request, source: seq<Byte>): Option<Page>
    requires sent.offset <= sent.end <= |source|
  {
    match r
    case Accepted(c) => Some(Page(c, p.hashed + source[sent.offset..sent.end], None))
    case Corrected(c) => if c <= |source| then Some(Page(c, source[..c], None)) else None
    case Refused => None
  }

  /** What a power cut leaves of a file: the durable bytes, then anything. */
  function Survives(part: Option<Part>, tail: seq<Byte>): Option<Part> {
    if part.None? || part.value.durable > |part.value.bytes| then part
    else Some(Part(part.value.bytes[..part.value.durable] + tail, part.value.durable))
  }

  /** Whether an event can happen: its page or call exists, a new call is new, and
  the disk takes what it is given. */
  predicate Enabled(s: System, e: Event, size: nat) {
    match e
    case Ask(page) => s.server.item.stored <= size
    case Post(page, call) =>
      page in s.pages && s.pages[page].waiting.None? && s.pages[page].offset < size
      && call !in s.requests && call !in s.server.replies
    case Deliver(call, turns, opening) =>
      call in s.requests && s.requests[call].offset <= s.requests[call].end <= size
      && forall t <- turns :: t.Read? ==> t.writes
    case Note(call) => call in s.server.calls
    case Hear(page) =>
      page in s.pages && s.pages[page].waiting.Some? && s.pages[page].waiting.value in s.requests
      && s.pages[page].waiting.value in s.server.replies
      && s.requests[s.pages[page].waiting.value].offset <= s.requests[s.pages[page].waiting.value].end <= size
    case Complete(page, env, placing) => page in s.pages && s.pages[page].offset >= size
    case _ => true
  }

  function Step(s: System, e: Event, source: seq<Byte>): System {
    if !Enabled(s, e, |source|) then s
    else match e
      case Ask(page) =>
        var offset := s.server.item.stored;
        s.(pages := s.pages[page := Page(offset, source[..offset], None)])
      case Post(page, call) =>
        var p := s.pages[page];
        s.(requests := s.requests[call := Request(p.offset, ChunkEnd(p.offset, |source|))],
           pages := s.pages[page := p.(waiting := Some(call))])
      case Deliver(call, turns, opening) =>
        s.(server := ServerStep(s.server, Serve(call, ChunkOf(s.requests[call], turns, source), opening)))
      case Note(call) => s.(server := ServerStep(s.server, Record(call)))
      case Hear(page) =>
        var p := s.pages[page];
        var next := Heard(p, s.server.replies[p.waiting.value], s.requests[p.waiting.value], source);
        s.(pages := if next.Some? then s.pages[page := next.value] else s.pages - {page})
      case Quit(page) => s.(pages := s.pages - {page})
      case Complete(page, env, placing) =>
        s.(server := ServerStep(s.server, Commit(Some(Digest(s.pages[page].hashed)), env, placing)),
           pages := s.pages - {page})
      case Fetch(offset, written, broken) =>
        s.(server := ServerStep(s.server, ServerEvent.Fetch(offset, written, broken)))
      case PowerCut(tail) => s.(server := ServerStep(s.server, Crash(Survives(s.server.item.part, tail))))
      case Restart => s.(server := ServerStep(s.server, Stop))
  }

  function ChunkOf(r: Request, turns: seq<Turn>, source: seq<Byte>): Chunk
    requires r.offset <= r.end <= |source|
  {
    Chunk(r.offset, source[r.offset..r.end], turns, true)
  }

  function Run(s: System, es: seq<Event>, source: seq<Byte>): System
    decreases |es|
  {
    if es == [] then s else Run(Step(s, es[0], source), es[1..], source)
  }

  /** No download of the item is served. */
  predicate Undownloaded(es: seq<Event>) {
    forall e <- es :: !e.Fetch?
  }

  function Start(size: nat): System {
    System(Server(NewItem(size), map[], map[]), map[], map[])
  }

  // ------------------------------------------------------------- invariant

  /** An open item: everything on disk, in memory and in the store is the source up
  to some offset, and the offsets are ordered. */
  ghost predicate Exact(it: Item, source: seq<Byte>) {
    && it.size == |source|
    && it.stored <= |source|
    && (it.placed.Some? ==> it.placed.value == source)
    && (it.completed ==> it.stored == |source|)
    && (it.ended ==> it.sink.None?)
    && (it.part.None? ==> it.sink.None? && (it.stored == 0 || it.completed || it.ended))
    && (it.part.Some? && !it.completed && !it.ended ==> Backed(it.part.value, it.stored, source))
    && (it.sink.Some? ==>
          && it.part.Some?
          && InStep(it.part.value, it.sink.value)
          && it.stored <= it.sink.value.committed <= |source|
          && (!it.completed ==> Level(it.part.value, it.sink.value, source)))
  }

  /** File and hash are the same prefix of the source, all of it durable. */
  ghost predicate Level(p: Part, k: SinkView, source: seq<Byte>) {
    && !k.closed
    && k.committed <= |source|
    && k.log == source[..k.committed]
    && p == Part(k.log, k.committed)
  }

  /** The durable bytes of a file are the source's, and cover what was acknowledged. */
  ghost predicate Backed(p: Part, stored: nat, source: seq<Byte>) {
    && stored <= p.durable <= |p.bytes|
    && p.durable <= |source|
    && p.bytes[..p.durable] == source[..p.durable]
  }

  ghost predicate GoodCall(s: System, call: nat, size: nat)
    requires call in s.server.calls
  {
    var job := s.server.calls[call];
    && call in s.requests
    && job.committed <= size
    && (s.server.item.sink.Some? ==> job.committed <= s.server.item.sink.value.committed)
    && (job.result == Appended ==> job.committed == s.requests[call].end)
  }

  ghost predicate GoodReply(s: System, call: nat)
    requires call in s.server.replies
  {
    var r := s.server.replies[call];
    && call in s.requests
    && (!r.Refused? ==> r.committed <= s.server.item.stored)
    && (r.Accepted? ==> r.committed == s.requests[call].end)
  }

  predicate GoodRequest(r: Request, size: nat) {
    r.offset < size && r.end == ChunkEnd(r.offset, size)
  }

  ghost predicate GoodPage(s: System, p: Page, source: seq<Byte>) {
    && p.offset <= s.server.item.stored
    && p.offset <= |source|
    && p.hashed == source[..p.offset]
    && (p.waiting.Some? ==> p.waiting.value in s.requests && s.requests[p.waiting.value].offset == p.offset)
  }

  ghost predicate Inv(s: System, source: seq<Byte>) {
    && Exact(s.server.item, source)
    && (s.server.item.sink.None? && !s.server.item.completed && !s.server.item.ended ==> s.server.calls == map[])
    && (forall call <- s.server.calls :: GoodCall(s, call, |source|))
    && (forall call <- s.server.replies :: GoodReply(s, call))
    && (forall call <- s.requests :: GoodRequest(s.requests[call], |source|))
    && (forall page <- s.pages :: GoodPage(s, s.pages[page], source))
  }

  /** A source whose size fits the signed integer the reader is limited by. */
  predicate Sendable(source: seq<Byte>) {
    |source| < U64 / 2
  }

  // ------------------------------------------------------------ preservation

  /** Opening an exact item never finds less than was acknowledged, and leaves the
  file, the hash and the offset on the same prefix of the source. */
  lemma OpenIsExact(it: Item, env: Opening, source: seq<Byte>)
    requires Exact(it, source)
    requires !it.ended
    ensures var (open, ok) := WithSink(it, env);
            && Exact(open, source)
            && open == it.(part := open.part, sink := open.sink)
            && (ok <==> open.sink.Some?)
            && (it.sink.Some? ==> open == it)
            && (it.sink.None? && ok ==> open.sink.value.committed == it.stored)
            && (!it.completed ==> OpenSpec(it.part, it.sink, it.stored, env).result != ErrCommittedLoss)
  {
    if it.sink.None? && env.opens && !it.completed {
      var p := if it.part.Some? then it.part.value else Part([], 0);
      assert Backed(p, it.stored, source);
      assert p.bytes[..it.stored] == p.bytes[..p.durable][..it.stored] == source[..it.stored];
    }
  }

  /** What a copy of a slice of the source does: the next bytes of the source go to
  the file and the hash alike, all of them when the copy ends well. */
  lemma CopyOfSlice(source: seq<Byte>, offset: nat, end: nat, turns: seq<Turn>)
    requires offset <= end <= |source| && Sendable(source) && AllWrite(turns)
    ensures var o := CopySpec(source[offset..end], ReaderLimit(|source| - offset), turns);
            && offset + o.written <= end
            && o.hashed == o.filed == source[offset..offset + o.written]
            && (o.ok ==> offset + o.written == end)
  {
    var body, left := source[offset..end], ReaderLimit(|source| - offset);
    CopyExact(body, left, turns);
    CopyLockstep(body, left, turns);
    var o := CopySpec(body, left, turns);
    assert o.hashed == body[..o.written];
  }

  lemma PrefixGrows(source: seq<Byte>, i: nat, j: nat)
    requires i <= j <= |source|
    ensures source[..i] + source[i..j] == source[..j]
  {
  }

  lemma AcknowledgeStaysLevel(p: Part, k: SinkView, o: CopyOut, source: seq<Byte>)
    requires Level(p, k, source)
    requires k.committed + o.written <= |source|
    requires o.hashed == o.filed == source[k.committed..k.committed + o.written]
    ensures var a := Acknowledge(p, k, o, true);
            && Level(a.part, a.sink, source)
            && a.committed == a.sink.committed == k.committed + o.written
            && (a.result == Appended <==> o.ok)
  {
    PrefixGrows(source, k.committed, k.committed + o.written);
  }

  lemma AppendStaysLevel(p: Part, k: SinkView, c: Chunk, source: seq<Byte>, end: nat)
    requires Level(p, k, source) && Sendable(source)
    requires c.offset <= end <= |source| && c.body == source[c.offset..end]
    requires c.syncs && AllWrite(c.turns)
    ensures var a := AppendSpec(p, k, c, |source|);
            && Level(a.part, a.sink, source)
            && k.committed <= a.committed == a.sink.committed
            && (a.result == Appended ==> a.committed == end)
  {
    hide CopySpec;
    if c.offset == k.committed {
      CopyOfSlice(source, c.offset, end, c.turns);
      AcknowledgeStaysLevel(p, k, CopySpec(c.body, ReaderLimit(|source| - c.offset), c.turns), source);
    }
  }

  lemma LevelIsBacked(p: Part, k: SinkView, stored: nat, source: seq<Byte>)
    requires Level(p, k, source) && stored <= k.committed
    ensures Backed(p, stored, source) && InStep(p, k)
  {
    assert p.bytes[..p.durable] == p.bytes;
  }

  lemma AppendIsExact(it: Item, c: Chunk, env: Opening, source: seq<Byte>, end: nat)
    requires Exact(it, source) && Sendable(source)
    requires c.offset <= end <= |source| && c.body == source[c.offset..end] && c.offset < |source|
    requires c.syncs && AllWrite(c.turns)
    ensures var (next, job) := AppendTo(it, c, env);
            && Exact(next, source)
            && next == it.(part := next.part, sink := next.sink)
            && (job.Some? ==> next.sink.Some? && job.value.committed == next.sink.value.committed
                              && (it.sink.Some? ==> it.sink.value.committed <= job.value.committed)
                              && (it.sink.None? ==> it.stored <= job.value.committed)
                              && (job.value.result == Appended ==> job.value.committed == end))
            && (job.None? && it.sink.None? ==> next.sink.None?)
            && (job.None? && it.sink.Some? ==> next == it)
  {
    if !it.ended {
      OpenIsExact(it, env, source);
      var (open, ok) := WithSink(it, env);
      if ok && !it.completed {
        AppendStaysLevel(open.part.value, open.sink.value, c, source, end);
        var a := AppendSpec(open.part.value, open.sink.value, c, |source|);
        LevelIsBacked(a.part, a.sink, it.stored, source);
      }
    }
  }

  lemma DeliverKeepsInv(s: System, call: nat, turns: seq<Turn>, opening: Opening, source: seq<Byte>)
    requires Inv(s, source) && Sendable(source)
    requires Enabled(s, Deliver(call, turns, opening), |source|)
    ensures Inv(Step(s, Deliver(call, turns, opening), source), source)
  {
    hide CopySpec, AppendSpec, OpenSpec, Level, Backed, InStep;
    if call !in s.server.calls {
      var c := ChunkOf(s.requests[call], turns, source);
      AppendIsExact(s.server.item, c, opening, source, s.requests[call].end);
      var (next, job) := AppendTo(s.server.item, c, opening);
      var t := Step(s, Deliver(call, turns, opening), source);
      assert t.server.item == next;
      forall other <- t.server.calls ensures GoodCall(t, other, |source|) {
        if other != call {
          assert GoodCall(s, other, |source|);
        }
      }
      forall other <- t.server.replies ensures GoodReply(t, other) {
        if other in s.server.replies {
          assert GoodReply(s, other);
        }
      }
      forall page <- t.pages ensures GoodPage(t, t.pages[page], source) {
        assert GoodPage(s, s.pages[page], source);
      }
    }
  }

  lemma NoteKeepsInv(s: System, call: nat, source: seq<Byte>)
    requires Inv(s, source) && call in s.server.calls
    ensures Inv(Step(s, Note(call), source), source)
  {
    var t := Step(s, Note(call), source);
    assert GoodCall(s, call, |source|);
    forall other <- t.server.calls ensures GoodCall(t, other, |source|) {
      assert GoodCall(s, other, |source|);
    }
    forall other <- t.server.replies ensures GoodReply(t, other) {
      if other != call {
        assert GoodReply(s, other);
      }
    }
    forall page <- t.pages ensures GoodPage(t, t.pages[page], source) {
      assert GoodPage(s, s.pages[page], source);
    }
  }

  lemma HearKeepsInv(s: System, page: nat, source: seq<Byte>)
    requires Inv(s, source) && Enabled(s, Hear(page), |source|)
    ensures Inv(Step(s, Hear(page), source), source)
  {
  }

  /** A page that reached the end posts a digest that verifies. */
  lemma DigestVerifies(it: Item, hashed: seq<Byte>, env: Opening, placing: Placing, source: seq<Byte>)
    requires Exact(it, source) && hashed == source
    ensures var (next, result) := FinishItem(it, Some(Digest(hashed)), env, placing);
            && result != Mismatched
            && Exact(next, source)
            && next.stored == it.stored
            && (it.completed ==> next == it)
            && (result == Finished ==> next.completed)
  {
    if !it.ended { OpenIsExact(it, env, source); }
    hide OpenSpec, Backed;
  }

  lemma CompleteKeepsInv(s: System, page: nat, env: Opening, placing: Placing, source: seq<Byte>)
    requires Inv(s, source) && Enabled(s, Complete(page, env, placing), |source|)
    ensures Inv(Step(s, Complete(page, env, placing), source), source)
  {
    var it := s.server.item;
    assert GoodPage(s, s.pages[page], source);
    assert source[..|source|] == source;
    DigestVerifies(it, s.pages[page].hashed, env, placing, source);
    var t := Step(s, Complete(page, env, placing), source);
    if !it.completed && !it.ended && it.stored == it.size {
      OpenIsExact(it, env, source);
    }
    forall other <- t.server.calls ensures GoodCall(t, other, |source|) {
      assert GoodCall(s, other, |source|);
    }
    forall other <- t.server.replies ensures GoodReply(t, other) {
      assert GoodReply(s, other);
    }
    forall other <- t.pages ensures GoodPage(t, t.pages[other], source) {
      assert GoodPage(s, s.pages[other], source);
    }
  }

  lemma RestartedIsExact(it: Item, e: Event, source: seq<Byte>)
    requires Exact(it, source) && (e.PowerCut? || e.Restart?)
    ensures Exact(it.(part := if e.PowerCut? then Survives(it.part, e.tail) else it.part, sink := None), source)
  {
  }

  /** A crash or a restart leaves the acknowledged bytes and forgets the calls. */
  lemma RestartKeepsInv(s: System, e: Event, source: seq<Byte>)
    requires Inv(s, source) && (e.PowerCut? || e.Restart?)
    ensures Inv(Step(s, e, source), source)
  {
    hide Exact, Survives;
    RestartedIsExact(s.server.item, e, source);
  }

  lemma PageStepKeepsInv(s: System, e: Event, source: seq<Byte>)
    requires Inv(s, source) && (e.Ask? || e.Post? || e.Quit?)
    ensures Inv(Step(s, e, source), source)
  {
    hide Exact;
  }

  /** Every step of the protocol keeps the invariant, but for a download of the item. */
  lemma StepKeepsInv(s: System, e: Event, source: seq<Byte>)
    requires Inv(s, source) && Sendable(source) && !e.Fetch?
    ensures Inv(Step(s, e, source), source)
  {
    if Enabled(s, e, |source|) {
      match e
      case Deliver(call, turns, opening) => DeliverKeepsInv(s, call, turns, opening, source);
      case Note(call) => NoteKeepsInv(s, call, source);
      case Hear(page) => HearKeepsInv(s, page, source);
      case Complete(page, env, placing) => CompleteKeepsInv(s, page, env, placing, source);
      case PowerCut(_) => RestartKeepsInv(s, e, source);
      case Restart => RestartKeepsInv(s, e, source);
      case _ => PageStepKeepsInv(s, e, source);
    }
  }

  lemma {:induction false} RunKeepsInv(s: System, es: seq<Event>, source: seq<Byte>)
    requires Inv(s, source) && Sendable(source) && Undownloaded(es)
    ensures Inv(Run(s, es, source), source)
    decreases |es|
  {
    if es != [] {
      StepKeepsInv(s, es[0], source);
      RunKeepsInv(Step(s, es[0], source), es[1..], source);
    }
  }

  // ----------------------------------------------------------------- results

  lemma StartIsGood(source: seq<Byte>)
    ensures Inv(Start(|source|), source)
  {
  }

  /** In every run: the file and the hash of an open item are the source up to its
  acknowledged offset, the store never claims more than is durable, every page has
  hashed the source up to its own offset, and no reopening of an item that is not
  placed yet finds acknowledged bytes missing. */
  lemma EveryRunIsExact(source: seq<Byte>, es: seq<Event>, env: Opening)
    requires Sendable(source) && Undownloaded(es)
    ensures var s := Run(Start(|source|), es, source);
            var it := s.server.item;
            && (it.sink.Some? && !it.completed ==>
                  && it.part.Some?
                  && it.stored <= it.sink.value.committed <= |source|
                  && it.part.value.bytes == it.sink.value.log == source[..it.sink.value.committed]
                  && it.part.value.durable == it.sink.value.committed)
            && (it.part.Some? && !it.completed && !it.ended ==> it.stored <= it.part.value.durable)
            && (forall page <- s.pages :: s.pages[page].offset <= it.stored && s.pages[page].offset <= |source|
                                          && s.pages[page].hashed == source[..s.pages[page].offset])
            && (!it.completed && !it.ended ==>
                  OpenSpec(it.part, it.sink, it.stored, env).result != ErrCommittedLoss)
            && (it.placed == None || it.placed == Some(source))
  {
    StartIsGood(source);
    RunKeepsInv(Start(|source|), es, source);
    var s := Run(Start(|source|), es, source);
    if !s.server.item.ended {
      OpenIsExact(s.server.item, env, source);
    }
    forall page <- s.pages
      ensures s.pages[page].offset <= s.server.item.stored && s.pages[page].offset <= |source|
              && s.pages[page].hashed == source[..s.pages[page].offset]
    {
      assert GoodPage(s, s.pages[page], source);
    }
  }

  /** In every run, a page that reached the end of the file posts a digest that the
  computer accepts: committing never reports a mismatch, and when the file system
  does its part the item is placed. */
  lemma EveryDigestVerifies(source: seq<Byte>, es: seq<Event>, page: nat, env: Opening, placing: Placing)
    requires Sendable(source) && Undownloaded(es)
    requires var s := Run(Start(|source|), es, source); page in s.pages && s.pages[page].offset >= |source|
    ensures var s := Run(Start(|source|), es, source);
            var (it, result) := FinishItem(s.server.item, Some(Digest(s.pages[page].hashed)), env, placing);
            && result != Mismatched && result != NotWhole
            && (env == ALL_OPEN && placing == ALL_PLACE && !s.server.item.ended && s.server.item.placed.None? ==>
                  result == Finished && (s.server.item.completed || it.placed == Some(source)))
  {
    StartIsGood(source);
    RunKeepsInv(Start(|source|), es, source);
    var s := Run(Start(|source|), es, source);
    assert GoodPage(s, s.pages[page], source);
    assert source[..|source|] == source;
    DigestVerifies(s.server.item, s.pages[page].hashed, env, placing, source);
    if !s.server.item.ended {
      OpenIsExact(s.server.item, env, source);
    }
  }

  lemma StepGrows(s: System, e: Event, source: seq<Byte>)
    ensures s.server.item.stored <= Step(s, e, source).server.item.stored
  {
  }

  lemma {:induction false} StoredOnlyGrows(s: System, es: seq<Event>, source: seq<Byte>)
    ensures s.server.item.stored <= Run(s, es, source).server.item.stored
    decreases |es|
  {
    if es != [] {
      StepGrows(s, es[0], source);
      StoredOnlyGrows(Step(s, es[0], source), es[1..], source);
    }
  }

  // --------------------------------------------------------- with downloads

  ghost predicate TrueCall(s: System, call: nat)
    requires call in s.server.calls
  {
    var job := s.server.calls[call];
    && call in s.requests
    && job.committed <= s.server.item.size
    && (job.result == Appended ==> job.committed == s.requests[call].end)
  }

  /** What downloads do not disturb. */
  ghost predicate Truthful(s: System, size: nat) {
    && Steady(s.server.item) && s.server.item.size == size < U64 / 2
    && (forall call <- s.server.calls :: TrueCall(s, call))
    && (forall call <- s.server.replies :: GoodReply(s, call))
    && (forall call <- s.requests :: GoodRequest(s.requests[call], size))
  }

  lemma StepStaysSteady(s: System, e: Event, source: seq<Byte>)
    requires Steady(s.server.item)
    ensures Steady(Step(s, e, source).server.item) && Step(s, e, source).server.item.size == s.server.item.size
  {
    hide Steady, Survives, ChunkOf, AppendSpec, OpenSpec, CommitSpec, Heard;
    if Enabled(s, e, |source|) {
      match e
      case Deliver(call, turns, opening) =>
        StepIsSteady(s.server, Serve(call, ChunkOf(s.requests[call], turns, source), opening));
      case Note(call) => StepIsSteady(s.server, Record(call));
      case Complete(page, env, placing) =>
        StepIsSteady(s.server, Commit(Some(Digest(s.pages[page].hashed)), env, placing));
      case Fetch(offset, written, broken) => StepIsSteady(s.server, ServerEvent.Fetch(offset, written, broken));
      case PowerCut(tail) => StepIsSteady(s.server, Crash(Survives(s.server.item.part, tail)));
      case Restart => StepIsSteady(s.server, Stop);
      case _ =>
    }
  }

  lemma JobIsWhole(it: Item, c: Chunk, env: Opening)
    requires Steady(it) && it.size < U64 / 2 && c.offset + |c.body| <= it.size
    ensures var (next, job) := AppendTo(it, c, env);
            && next.stored == it.stored
            && (job.Some? ==>
                  && job.value.committed <= it.size
                  && (job.value.result == Appended ==> job.value.committed == c.offset + |c.body|))
  {
    hide CopySpec, AppendSpec, OpenSpec;
    OpenIsSteady(it, env);
    var (open, ok) := WithSink(it, env);
    if ok {
      AppendKeepsStep(open.part.value, open.sink.value, c, it.size);
      AppendIsWhole(open.part.value, open.sink.value, c, it.size);
    }
  }

  lemma DeliverIsTruthful(s: System, call: nat, turns: seq<Turn>, opening: Opening, source: seq<Byte>)
    requires Truthful(s, |source|) && Enabled(s, Deliver(call, turns, opening), |source|)
    ensures Truthful(Step(s, Deliver(call, turns, opening), source), |source|)
  {
    StepStaysSteady(s, Deliver(call, turns, opening), source);
    JobIsWhole(s.server.item, ChunkOf(s.requests[call], turns, source), opening);
    hide Steady, AppendTo;
    var t := Step(s, Deliver(call, turns, opening), source);
    forall other <- t.server.calls ensures TrueCall(t, other) {
      assert other != call ==> TrueCall(s, other);
    }
    forall other <- t.server.replies ensures GoodReply(t, other) {
      assert other in s.server.replies ==> GoodReply(s, other);
    }
  }

  lemma NoteIsTruthful(s: System, call: nat, source: seq<Byte>)
    requires Truthful(s, |source|) && call in s.server.calls
    ensures Truthful(Step(s, Note(call), source), |source|)
  {
    StepStaysSteady(s, Note(call), source);
    hide Steady;
    var t := Step(s, Note(call), source);
    assert TrueCall(s, call);
    forall other <- t.server.calls ensures TrueCall(t, other) {
      assert TrueCall(s, other);
    }
    forall other <- t.server.replies ensures GoodReply(t, other) {
      assert other in s.server.replies ==> GoodReply(s, other);
    }
  }

  lemma OtherStepAnswersNothing(s: System, e: Event, source: seq<Byte>)
    requires !e.Deliver? && !e.Note?
    ensures var t := Step(s, e, source);
            && (t.server.calls == s.server.calls || t.server.calls == map[])
            && t.server.replies == s.server.replies
            && (t.requests == s.requests
                || exists call: nat, r :: call !in s.requests && t.requests == s.requests[call := r]
                                     && GoodRequest(r, |source|))
  {
    hide FinishItem, Survives, FetchItem, Heard;
    if e.Post? && Enabled(s, e, |source|) {
      var r := Request(s.pages[e.page].offset, ChunkEnd(s.pages[e.page].offset, |source|));
      assert GoodRequest(r, |source|);
    }
  }

  lemma OtherStepIsTruthful(s: System, e: Event, source: seq<Byte>)
    requires Truthful(s, |source|) && !e.Deliver? && !e.Note?
    ensures Truthful(Step(s, e, source), |source|)
  {
    StepStaysSteady(s, e, source);
    StepGrows(s, e, source);
    OtherStepAnswersNothing(s, e, source);
    hide Steady, Step, GoodRequest;
    assert forall other <- Step(s, e, source).server.calls :: TrueCall(s, other);
    assert forall other <- s.server.replies :: GoodReply(s, other);
  }

  lemma {:induction false} RunIsTruthful(s: System, es: seq<Event>, source: seq<Byte>)
    requires Truthful(s, |source|)
    ensures Truthful(Run(s, es, source), |source|)
    decreases |es|
  {
    hide Truthful, Step;
    if es != [] {
      if !Enabled(s, es[0], |source|) {
        DisabledStep(s, es[0], source);
      } else {
        match es[0] {
          case Deliver(call, turns, opening) => DeliverIsTruthful(s, call, turns, opening, source);
          case Note(call) => NoteIsTruthful(s, call, source);
          case _ => OtherStepIsTruthful(s, es[0], source);
        }
      }
      RunIsTruthful(Step(s, es[0], source), es[1..], source);
    }
  }

  lemma DisabledStep(s: System, e: Event, source: seq<Byte>)
    requires !Enabled(s, e, |source|)
    ensures Step(s, e, source) == s
  {
  }

  /** A reply is a promise: once a page was told that bytes are durable, no later run,
  with any crash, restart or download in it, has a store that asks for them again. */
  lemma RepliesAreKept(source: seq<Byte>, es: seq<Event>, fs: seq<Event>, call: nat)
    requires Sendable(source)
    requires var s := Run(Start(|source|), es, source);
             call in s.server.replies && s.server.replies[call].Accepted? && call in s.requests
    ensures var s := Run(Start(|source|), es, source);
            && s.server.replies[call].committed == s.requests[call].end
            && s.requests[call].end <= Run(s, fs, source).server.item.stored
  {
    hide Step;
    RunIsTruthful(Start(|source|), es, source);
    var s := Run(Start(|source|), es, source);
    assert GoodReply(s, call);
    StoredOnlyGrows(s, fs, source);
  }

  /** No run loses what it acknowledged; `fetches` tells whether downloads are served. */
  ghost predicate NeverLost(source: seq<Byte>, fetches: bool) {
    forall es :: (fetches || Undownloaded(es)) ==> Reopens(Run(Start(|source|), es, source).server.item)
  }

  /** No reopening of an item that is not placed yet finds acknowledged bytes missing. */
  ghost predicate Reopens(it: Item) {
    !it.completed && !it.ended ==> OpenSpec(it.part, it.sink, it.stored, ALL_OPEN).result != ErrCommittedLoss
  }

  /** A broken download of an item of which nothing is there yet records all of it, and
  from then on no chunk can be received. */
  lemma DownloadLosesTheItem(source: seq<Byte>)
    requires source != []
    ensures !Reopens(Run(Start(|source|), [Event.Fetch(0, |source|, true)], source).server.item)
  {
    var e := Event.Fetch(0, |source|, true);
    assert [e][1..] == [];
    assert Run(Start(|source|), [e], source) == Run(Step(Start(|source|), e, source), [], source);
  }

  /** Acknowledged bytes stay there in every run exactly when no download of the item is
  served or the item is empty. */
  lemma NeverLostExactlyWhen(source: seq<Byte>, fetches: bool)
    requires Sendable(source)
    ensures NeverLost(source, fetches) <==> !fetches || source == []
  {
    hide Run, Step;
    if fetches && source != [] {
      DownloadLosesTheItem(source);
    } else {
      forall es | fetches || Undownloaded(es) ensures Reopens(Run(Start(|source|), es, source).server.item) {
        if !fetches {
          EveryRunIsExact(source, es, ALL_OPEN);
        } else {
          RunIsTruthful(Start(|source|), es, source);
        }
      }
    }
  }

  // --------------------------------------------------------------- progress

  /** A power cut can leave any file that begins with the durable bytes. */
  lemma PowerCutsLeaveAnything(p: Part, q: seq<Byte>)
    requires p.durable <= |p.bytes| && p.durable <= |q| && q[..p.durable] == p.bytes[..p.durable]
    ensures Survives(Some(p), q[p.durable..]) == Some(Part(q, p.durable))
  {
    assert q[..p.durable] + q[p.durable..] == q;
  }

  /** One page, nothing in flight, and everything up to its offset recorded. */
  ghost predicate Poised(s: System, offset: nat, calls: nat, source: seq<Byte>) {
    var it := s.server.item;
    && Exact(it, source) && !it.completed && !it.ended && it.placed == None && it.stored == offset
    && (it.sink.Some? ==> it.sink.value.committed == offset)
    && s.server.calls == map[] && 0 in s.pages && s.pages[0] == Page(offset, source[..offset], None)
    && (forall call <- s.requests :: call < calls) && (forall call <- s.server.replies :: call < calls)
  }

  /** One chunk that gets through. */
  function RoundTrip(call: nat, turns: seq<Turn>): seq<Event> {
    [Post(0, call)] + ([Deliver(call, turns, ALL_OPEN)] + ([Note(call)] + [Hear(0)]))
  }

  lemma RunOne(s: System, e: Event, es: seq<Event>, source: seq<Byte>)
    ensures Run(s, [e] + es, source) == Run(Step(s, e, source), es, source)
    ensures Run(Step(s, e, source), [], source) == Step(s, e, source)
  {
    assert ([e] + es)[1..] == es;
  }

  lemma {:induction false} RunBoth(s: System, es: seq<Event>, fs: seq<Event>, source: seq<Byte>)
    ensures Run(s, es + fs, source) == Run(Run(s, es, source), fs, source)
    decreases |es|
  {
    hide Step;
    if es == [] {
      assert es + fs == fs;
    } else {
      assert es + fs == [es[0]] + (es[1..] + fs) && es == [es[0]] + es[1..];
      RunOne(s, es[0], es[1..] + fs, source);
      RunOne(s, es[0], es[1..], source);
      RunBoth(Step(s, es[0], source), es[1..], fs, source);
    }
  }

  lemma PoisedAppend(it: Item, c: Chunk, source: seq<Byte>, end: nat)
    requires Exact(it, source) && !it.completed && !it.ended && Sendable(source)
    requires it.sink.Some? ==> it.sink.value.committed == it.stored
    requires c.offset == it.stored < end <= |source| && c.body == source[c.offset..end] && c.syncs
    requires Flows(c.turns, |c.body|)
    ensures var (next, job) := AppendTo(it, c, ALL_OPEN);
            && job == Some(Job(end, Appended)) && Exact(next, source)
            && next == it.(part := next.part, sink := next.sink)
            && next.sink.Some? && next.sink.value.committed == end
  {
    OpenIsExact(it, ALL_OPEN, source);
    var open := WithSink(it, ALL_OPEN).0;
    FlowsWrite(c.turns, |c.body|);
    AppendIsExact(it, c, ALL_OPEN, source, end);
    hide Exact, AppendSpec, OpenSpec, Flows;
    AppendTakesAll(open.part.value, open.sink.value, c, |source|);
  }

  lemma FlowsWrite(turns: seq<Turn>, n: nat)
    requires Flows(turns, n)
    ensures AllWrite(turns)
  {
  }

  lemma ChunkIsTaken(s: System, offset: nat, call: nat, turns: seq<Turn>, source: seq<Byte>)
    requires Poised(s, offset, call, source) && offset < |source| && Sendable(source) && Flows(turns, CHUNK_BYTES)
    ensures var end := ChunkEnd(offset, |source|);
            var s1 := Step(s, Post(0, call), source);
            var s2 := Step(s1, Deliver(call, turns, ALL_OPEN), source);
            && Exact(s2.server.item, source) && s2.server.item.sink.Some? && s2.server.item.sink.value.committed == end
            && s2.server.item == s.server.item.(part := s2.server.item.part, sink := s2.server.item.sink)
            && s2.server == Server(s2.server.item, map[call := Job(end, Appended)], s.server.replies)
            && s2.requests == s.requests[call := Request(offset, end)]
            && s2.pages == s.pages[0 := Page(offset, source[..offset], Some(call))]
  {
    var end := ChunkEnd(offset, |source|);
    FlowsWrite(turns, CHUNK_BYTES);
    PoisedAppend(s.server.item, Chunk(offset, source[offset..end], turns, true), source, end);
    hide AppendTo, Exact, Flows, Sendable;
    var s1 := Step(s, Post(0, call), source);
    assert ChunkOf(s1.requests[call], turns, source) == Chunk(offset, source[offset..end], turns, true);
  }

  lemma ChunkGetsThrough(s: System, offset: nat, call: nat, turns: seq<Turn>, source: seq<Byte>)
    requires Poised(s, offset, call, source) && offset < |source| && Sendable(source) && Flows(turns, CHUNK_BYTES)
    ensures Poised(Run(s, RoundTrip(call, turns), source), ChunkEnd(offset, |source|), call + 1, source)
  {
    var end := ChunkEnd(offset, |source|);
    ChunkIsTaken(s, offset, call, turns, source);
    var s2 := Step(Step(s, Post(0, call), source), Deliver(call, turns, ALL_OPEN), source);
    var s3 := Step(s2, Note(call), source);
    StoredIsExact(s2.server.item, end, source);
    PrefixGrows(source, offset, end);
    hide Exact, Flows, Sendable;
    assert s3.server.item == s2.server.item.(stored := end) && s3.server.calls == map[];
    assert Step(s3, Hear(0), source).pages[0] == Page(end, source[..end], None);
    RunRoundTrip(s, call, turns, source);
  }

  lemma StoredIsExact(it: Item, end: nat, source: seq<Byte>)
    requires Exact(it, source) && it.sink.Some? && it.sink.value.committed == end && !it.completed
    ensures Exact(it.(stored := end), source)
  {
    LevelIsBacked(it.part.value, it.sink.value, end, source);
  }

  lemma RunRoundTrip(s: System, call: nat, turns: seq<Turn>, source: seq<Byte>)
    ensures Run(s, RoundTrip(call, turns), source)
            == Step(Step(Step(Step(s, Post(0, call), source), Deliver(call, turns, ALL_OPEN), source), Note(call),
                         source), Hear(0), source)
  {
    hide Step;
    RunOne(s, Post(0, call), [Deliver(call, turns, ALL_OPEN)] + ([Note(call)] + [Hear(0)]), source);
    var s1 := Step(s, Post(0, call), source);
    RunOne(s1, Deliver(call, turns, ALL_OPEN), [Note(call)] + [Hear(0)], source);
    var s2 := Step(s1, Deliver(call, turns, ALL_OPEN), source);
    RunOne(s2, Note(call), [Hear(0)], source);
    var s3 := Step(s2, Note(call), source);
    assert [Hear(0)] + [] == [Hear(0)];
    RunOne(s3, Hear(0), [], source);
  }

  lemma {:induction false} RestGetsThrough(s: System, offset: nat, call: nat, turns: seq<Turn>, source: seq<Byte>)
    returns (es: seq<Event>)
    requires Poised(s, offset, call, source) && offset <= |source| && Sendable(source) && Flows(turns, CHUNK_BYTES)
    ensures Run(s, es, source).server.item.placed == Some(source)
    decreases |source| - offset
  {
    hide Run, Step, Flows, Sendable;
    if offset < |source| {
      ChunkGetsThrough(s, offset, call, turns, source);
      var next := Run(s, RoundTrip(call, turns), source);
      var rest := RestGetsThrough(next, ChunkEnd(offset, |source|), call + 1, turns, source);
      es := RoundTrip(call, turns) + rest;
      RunBoth(s, RoundTrip(call, turns), rest, source);
    } else {
      es := [Complete(0, ALL_OPEN, ALL_PLACE)];
      assert es == [Complete(0, ALL_OPEN, ALL_PLACE)] + [];
      RunOne(s, Complete(0, ALL_OPEN, ALL_PLACE), [], source);
      WholeIsPlaced(s, call, source);
    }
  }

  lemma WholeIsPlaced(s: System, call: nat, source: seq<Byte>)
    requires Poised(s, |source|, call, source)
    ensures Step(s, Complete(0, ALL_OPEN, ALL_PLACE), source).server.item.placed == Some(source)
  {
    assert source[..|source|] == source;
    OpenIsExact(s.server.item, ALL_OPEN, source);
    FinishOutcomes(s.server.item, Some(Digest(source)), ALL_OPEN, ALL_PLACE);
    hide FinishItem;
  }

  /** Every source can arrive, from the start and over a connection that delivers its
  chunks: the protocol's runs are not only safe. */
  lemma EverySourceArrives(source: seq<Byte>, turns: seq<Turn>) returns (es: seq<Event>)
    requires Sendable(source) && Flows(turns, CHUNK_BYTES)
    ensures Run(Start(|source|), es, source).server.item.placed == Some(source)
  {
    hide Flows;
    var s := Step(Start(|source|), Ask(0), source);
    AskedIsPoised(source);
    hide Run, Step;
    var rest := RestGetsThrough(s, 0, 0, turns, source);
    es := [Ask(0)] + rest;
    RunOne(Start(|source|), Ask(0), rest, source);
  }

  lemma AskedIsPoised(source: seq<Byte>)
    ensures Poised(Step(Start(|source|), Ask(0), source), 0, 0, source)
  {
    var s := Step(Start(|source|), Ask(0), source);
    assert s.pages[0] == Page(0, source[..0], None);
  }
}
