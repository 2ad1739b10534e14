/**
The resumable upload of one item as a distributed protocol: a receiving computer
that may crash, lose writes and restart, and any number of pages that push chunks
over a network that drops, delays and repeats requests.

One service call of the program is two atomic steps here, the append and the record
of its offset, so that a crash can fall between them.
*/
module Upload {
  import opened Common
  import opened Staging

  // ------------------------------------------------------------ the computer

  /** One incoming item as the computer holds it: what is on disk, in memory and in
  the store. `completed` is the item's, `ended` the transfer's. */
  datatype Item = Item(size: nat, part: Option<Part>, sink: Option<SinkView>, stored: nat,
                       placed: Option<seq<Byte>>, completed: bool, ended: bool)

  function NewItem(size: nat): Item {
    Item(size, None, None, 0, None, false, false)
  }

  /** An append that returned and whose offset is not recorded yet. */
  datatype Job = Job(committed: nat, result: AppendResult)

  datatype Reply = Accepted(committed: nat) | Corrected(committed: nat) | Refused

  /** Opening the sink on behalf of a call. */
  function WithSink(it: Item, env: Opening): (Item, bool) {
    var o := OpenSpec(it.part, it.sink, it.stored, env);
    (it.(part := o.part, sink := o.sink), o.result == Opened && o.part.Some? && o.sink.Some?)
  }

  /** The first half of a receive call. */
  function AppendTo(it: Item, c: Chunk, env: Opening): (Item, Option<Job>) {
    if it.ended then (it, None)
    else
      var (open, ok) := WithSink(it, env);
      if !ok then (open, None)
      else
        var a := AppendSpec(open.part.value, open.sink.value, c, it.size);
        (open.(part := Some(a.part), sink := Some(a.sink)), Some(Job(a.committed, a.result)))
  }

  /** The store takes an offset only forward and only up to the declared size. */
  function Advance(it: Item, committed: nat): Item {
    if it.stored <= committed <= it.size then it.(stored := committed) else it
  }

  /** What the caller hears once the offset is recorded. */
  function ReplyFor(job: Job): Reply {
    match job.result
    case Appended => Accepted(job.committed)
    case ErrMismatch => Corrected(job.committed)
    case _ => Refused
  }

  /** A receive call that nothing interrupts: append, record, answer. */
  function ReceiveItem(it: Item, c: Chunk, env: Opening): (Item, Reply) {
    var (next, job) := AppendTo(it, c, env);
    if job.None? then (next, Refused) else (Advance(next, job.value.committed), ReplyFor(job.value))
  }

  datatype FinishResult = Finished | NotThere | NotWhole | NotOpened | Mismatched | NotPlaced

  /** Verifying an item and moving it into place. */
  function FinishItem(it: Item, expected: Option<Digest>, env: Opening, placing: Placing): (Item, FinishResult) {
    if it.completed then (it, Finished)
    else if it.ended then (it, NotThere)
    else if it.stored != it.size then (it, NotWhole)
    else
      var (open, ok) := WithSink(it, env);
      if !ok then (open, NotOpened) else PlaceItem(open, expected, placing)
  }

  /** What a removal leaves of a staged file. */
  function Left(part: Option<Part>, removes: bool): Option<Part> {
    if removes then None else part
  }

  /** The outcome of a commit: an item that is placed is completed, and one that is
  not, or has no destination, ends its transfer and loses its partial data, unless that
  cannot be removed. */
  function PlaceItem(open: Item, expected: Option<Digest>, placing: Placing): (Item, FinishResult)
    requires open.part.Some? && open.sink.Some?
  {
    if !placing.resolves then (open.(sink := None, part := Left(open.part, placing.cleans), ended := true), NotPlaced)
    else
      var c := CommitSpec(open.part.value, Digest(open.sink.value.log), expected, placing);
      var after := open.(sink := None, placed := if c.placed.Some? then c.placed else open.placed);
      if c.result == Committed then (after.(part := c.part, completed := true), Finished)
      else
        (after.(part := Left(c.part, placing.cleans), ended := true),
         if c.result == ErrChecksum then Mismatched else NotPlaced)
  }

  /** A download of the item by a party to its transfer, through the pipe between two
  browsers: it records how far it got, and one that ends well at the end of the item
  marks it as completed. */
  function FetchItem(it: Item, offset: nat, written: nat, broken: bool): Item {
    if offset > it.size then it
    else
      var after := Advance(it, offset + written);
      if !broken && offset + written >= it.size then after.(completed := true) else after
  }

  datatype Server = Server(item: Item, calls: map<nat, Job>, replies: map<nat, Reply>)

  datatype ServerEvent =
    | Serve(call: nat, chunk: Chunk, env: Opening)
    | Record(call: nat)
    | Commit(expected: Option<Digest>, opening: Opening, placing: Placing)
    | Fetch(offset: nat, written: nat, broken: bool)
    | Crash(disk: Option<Part>)
    | Stop
    | End(removes: bool)

  function ServerStep(s: Server, e: ServerEvent): Server {
    match e
    case Serve(call, chunk, env) =>
      if call in s.calls then s
      else
        var (item, job) := AppendTo(s.item, chunk, env);
        if job.Some? then s.(item := item, calls := s.calls[call := job.value])
        else s.(item := item, replies := s.replies[call := Refused])
    case Record(call) =>
      if call !in s.calls then s
      else Server(Advance(s.item, s.calls[call].committed), s.calls - {call},
                  s.replies[call := ReplyFor(s.calls[call])])
    case Commit(expected, opening, placing) =>
      s.(item := FinishItem(s.item, expected, opening, placing).0)
    case Fetch(offset, written, broken) => s.(item := FetchItem(s.item, offset, written, broken))
    case Crash(disk) => s.(item := s.item.(part := disk, sink := None), calls := map[])
    case Stop => s.(item := s.item.(sink := None), calls := map[])
    case End(removes) => s.(item := s.item.(part := Left(s.item.part, removes), sink := None, ended := true))
  }

  function ServerRun(s: Server, es: seq<ServerEvent>): Server
    decreases |es|
  {
    if es == [] then s else ServerRun(ServerStep(s, es[0]), es[1..])
  }

  /** A completion that verifies nothing: the item is there already, is over, is not whole
  or cannot be opened. */
  lemma FinishAnswers(it: Item, expected: Option<Digest>, env: Opening, placing: Placing)
    ensures var (next, r) := FinishItem(it, expected, env, placing);
            && (it.completed ==> r == Finished && next == it)
            && (!it.completed && it.ended ==> r == NotThere && next == it)
            && (!it.completed && !it.ended && it.stored != it.size ==> r == NotWhole && next == it)
            && (!it.completed && !it.ended && it.stored == it.size && !WithSink(it, env).1 ==>
                  r == NotOpened && next == WithSink(it, env).0)
  {
    hide OpenSpec, CommitSpec;
  }

  /** Every way a whole item can end that could be opened. It is completed exactly when it
  verifies and every step of placing it succeeds, mismatched exactly when it was closed
  and has another digest, and over whenever it is not completed. */
  lemma FinishOutcomes(it: Item, expected: Option<Digest>, env: Opening, placing: Placing)
    requires !it.completed && !it.ended && it.stored == it.size && WithSink(it, env).1
    ensures var open := WithSink(it, env).0;
            var (next, r) := FinishItem(it, expected, env, placing);
            var matches := expected.Some? ==> expected.value == Digest(open.sink.value.log);
            var closed := placing.resolves && placing.syncs && placing.closes;
            && (r == Mismatched <==> closed && !matches)
            && (r == Finished <==> closed && matches && placing.makesDir
                                   && (placing.renames || (placing.copies && placing.removes)) && placing.permits)
            && (r == Finished || r == Mismatched || r == NotPlaced)
            && (next.completed <==> r == Finished) && (next.ended <==> r != Finished)
            && next.sink == None && next.stored == it.stored && next.size == it.size
            && next.placed == (if closed && matches && placing.makesDir && (placing.renames || placing.copies)
                               then Some(open.part.value.bytes) else it.placed)
            && (next.completed || placing.cleans ==> next.part == None)
            && (!placing.cleans && (!placing.resolves || !placing.syncs) ==> next.part == open.part)
  {
    hide OpenSpec, CommitSpec;
    var open := WithSink(it, env).0;
    CommitOutcomes(open.part.value, Digest(open.sink.value.log), expected, placing);
    if !placing.syncs { CommitWithoutSync(open.part.value, Digest(open.sink.value.log), expected, placing); }
  }

  lemma CommitWithoutSync(part: Part, computed: Digest, expected: Option<Digest>, env: Placing)
    requires !env.syncs
    ensures CommitSpec(part, computed, expected, env).part == Some(part)
  {
  }

  /** What an interruption forgets. A crash can leave any disk, a stop leaves it as it is,
  and both forget the open sink and the calls under way; an end gives up the data, if it
  can be removed, and from then on every chunk is answered with a refusal. */
  lemma InterruptionsForget(s: Server, disk: Option<Part>, removes: bool, call: nat, chunk: Chunk, env: Opening)
    requires call !in s.calls
    ensures ServerStep(s, Crash(disk)) == Server(s.item.(part := disk, sink := None), map[], s.replies)
    ensures ServerStep(s, Stop) == Server(s.item.(sink := None), map[], s.replies)
    ensures var t := ServerStep(s, End(removes));
            && t.item.ended && t.item.sink == None && t.item.stored == s.item.stored && t.item.placed == s.item.placed
            && t.item.part == (if removes then None else s.item.part)
            && ServerStep(t, Serve(call, chunk, env)) == t.(replies := t.replies[call := Refused])
  {
  }

  /** A download past the end is refused; any other records how far it got, if that is news
  and fits, and completes the item when it ends well at or past the end. */
  lemma FetchMeans(it: Item, offset: nat, written: nat, broken: bool)
    ensures var next := FetchItem(it, offset, written, broken);
            && (offset > it.size ==> next == it)
            && (offset <= it.size ==>
                  && (next.completed <==> it.completed || (!broken && offset + written >= it.size))
                  && next.stored == (if it.stored <= offset + written <= it.size then offset + written else it.stored)
                  && next == it.(stored := next.stored, completed := next.completed))
  {
  }

  // ---------------------------------------- integrity, whatever goes wrong

  /** What holds of an item in every run, downloads included: the hash of an open sink is
  in step with its file, and nothing is acknowledged past the declared size. */
  ghost predicate Steady(it: Item) {
    && it.stored <= it.size
    && (it.sink.Some? ==>
          && it.part.Some?
          && InStep(it.part.value, it.sink.value)
          && it.sink.value.committed <= it.size)
  }

  /** What holds besides when no download of the item is served: only what was received
  is recorded, and only what was placed is completed. */
  ghost predicate SoundItem(it: Item) {
    && Steady(it)
    && (it.completed ==> it.stored == it.size && it.placed.Some?)
    && (it.sink.Some? ==> it.stored <= it.sink.value.committed)
  }

  /** What holds of the computer in every run without downloads of the item, with
  arbitrary request bodies, failing writes and syncs, and a disk that a crash may
  replace by anything. */
  ghost predicate Sound(s: Server) {
    var it := s.item;
    && SoundItem(it)
    && (forall call <- s.calls :: s.calls[call].committed <= it.size)
    && (it.sink.Some? ==> forall call <- s.calls :: s.calls[call].committed <= it.sink.value.committed)
    && (it.sink.None? && !it.completed && !it.ended ==> s.calls == map[])
  }

  lemma OpenIsSteady(it: Item, env: Opening)
    requires Steady(it)
    ensures var (open, ok) := WithSink(it, env);
            && (ok <==> open.sink.Some?)
            && open == it.(part := open.part, sink := open.sink)
            && (it.sink.Some? ==> open == it)
            && Steady(open)
            && (ok && it.sink.None? ==> open.sink.value.committed == it.stored)
  {
  }

  lemma OpenIsSound(it: Item, env: Opening)
    requires SoundItem(it)
    ensures var (open, ok) := WithSink(it, env);
            && (ok <==> open.sink.Some?)
            && open == it.(part := open.part, sink := open.sink)
            && (it.sink.Some? ==> open == it)
            && (ok ==> open.part.Some? && InStep(open.part.value, open.sink.value)
                       && it.stored <= open.sink.value.committed <= it.size)
            && (ok && it.sink.None? ==> open.sink.value.committed == it.stored)
  {
  }

  /** Every event of the computer, downloads and crashes included, keeps the hash in step
  with the file. */
  lemma StepIsSteady(s: Server, e: ServerEvent)
    requires Steady(s.item)
    ensures Steady(ServerStep(s, e).item)
  {
    hide CopySpec;
    match e
    case Serve(call, chunk, env) =>
      OpenIsSteady(s.item, env);
      var (open, ok) := WithSink(s.item, env);
      if ok { AppendKeepsStep(open.part.value, open.sink.value, chunk, s.item.size); }
    case Commit(expected, opening, placing) => OpenIsSteady(s.item, opening);
    case _ =>
  }

  lemma ServeIsSound(s: Server, call: nat, chunk: Chunk, env: Opening)
    requires Sound(s)
    ensures Sound(ServerStep(s, Serve(call, chunk, env)))
  {
    OpenIsSound(s.item, env);
    var (open, ok) := WithSink(s.item, env);
    if ok {
      AppendKeepsStep(open.part.value, open.sink.value, chunk, s.item.size);
    }
  }

  /** One step of the computer keeps it sound, but for a download of the item. */
  lemma StepIsSound(s: Server, e: ServerEvent)
    requires Sound(s) && !e.Fetch?
    ensures Sound(ServerStep(s, e))
  {
    match e
    case Serve(call, chunk, env) => ServeIsSound(s, call, chunk, env);
    case Commit(expected, opening, placing) => OpenIsSound(s.item, opening);
    case _ =>
  }

  /** Whether every commit of a run carries this digest, or none. */
  ghost predicate Carries(es: seq<ServerEvent>, expected: Option<Digest>) {
    forall e <- es :: e.Commit? ==> e.expected == expected
  }

  /** No download of the item is served. */
  ghost predicate NoFetch(es: seq<ServerEvent>) {
    forall e <- es :: !e.Fetch?
  }

  lemma CommitStepPlacesSource(s: Server, e: ServerEvent, source: seq<Byte>)
    requires Sound(s) && |source| <= s.item.size
    requires s.item.placed.Some? ==> s.item.placed.value == source
    requires e.Commit? ==> e.expected == Some(Digest(source))
    ensures var t := ServerStep(s, e).item;
            t.size == s.item.size && (t.placed.Some? ==> t.placed.value == source)
  {
  }

  lemma {:induction false} IntegrityFrom(s: Server, es: seq<ServerEvent>, source: seq<Byte>)
    requires Sound(s) && |source| <= s.item.size && Carries(es, Some(Digest(source))) && NoFetch(es)
    requires s.item.placed.Some? ==> s.item.placed.value == source
    ensures var t := ServerRun(s, es);
            Sound(t) && (t.item.placed.Some? ==> t.item.placed.value == source)
    decreases |es|
  {
    if es != [] {
      StepIsSound(s, es[0]);
      CommitStepPlacesSource(s, es[0], source);
      IntegrityFrom(ServerStep(s, es[0]), es[1..], source);
    }
  }

  function NewServer(size: nat): Server {
    Server(NewItem(size), map[], map[])
  }

  /** Integrity of every run. Whatever bodies arrive in whatever order, whichever
  writes, syncs and opens fail, whatever a crash leaves on the disk: as long as the
  commits carry the digest of a source no longer than declared and no download of the
  item is served, the final path holds nothing or that source, and a completed item is
  that source. */
  lemma IntegrityOfEveryRun(size: nat, source: seq<Byte>, es: seq<ServerEvent>)
    requires |source| <= size && Carries(es, Some(Digest(source))) && NoFetch(es)
    ensures var it := ServerRun(NewServer(size), es).item;
            && (it.placed == None || it.placed == Some(source))
            && (it.completed ==> it.placed == Some(source))
  {
    IntegrityFrom(NewServer(size), es, source);
  }

  // ------------------------------- what an answer is worth, syncs failing or not

  /** What a power cut leaves of a file holds at least what was durable. */
  predicate KeepsDurable(before: Option<Part>, after: Option<Part>) {
    && (before.Some? ==> after.Some? && before.value.durable <= after.value.durable)
    && (after.Some? ==> after.value.durable <= |after.value.bytes|)
  }

  /** Every crash of a run is a power cut. */
  ghost predicate PowerCuts(s: Server, es: seq<ServerEvent>)
    decreases |es|
  {
    es != [] ==>
      && (es[0].Crash? ==> KeepsDurable(s.item.part, es[0].disk))
      && PowerCuts(ServerStep(s, es[0]), es[1..])
  }

  /** As long as an item is in progress, durable bytes cover its record and its sink. */
  ghost predicate Covered(it: Item) {
    && (it.part.Some? ==> it.part.value.durable <= |it.part.value.bytes|)
    && (!it.completed && !it.ended ==>
          && it.stored <= Durable(it)
          && (it.sink.Some? ==> it.sink.value.committed <= Durable(it)))
  }

  function Durable(it: Item): nat {
    if it.part.Some? then it.part.value.durable else 0
  }

  /** No answer names more than the record. */
  ghost predicate Answered(s: Server) {
    forall call <- s.replies :: !s.replies[call].Refused? ==> s.replies[call].committed <= s.item.stored
  }

  lemma AppendKeepsCover(part: Part, sink: SinkView, c: Chunk, limit: nat)
    requires InStep(part, sink) && sink.committed <= limit && part.durable <= |part.bytes|
    ensures var o := AppendSpec(part, sink, c, limit);
            && part.durable <= o.part.durable <= |o.part.bytes|
            && (sink.committed <= part.durable ==> o.sink.committed <= o.part.durable)
  {
    hide AppendSpec;
    AppendKeepsStep(part, sink, c, limit);
    AppendIsDurable(part, sink, c, limit);
    if sink.committed <= part.durable { AppendCommitsInFile(part, sink, c, limit); }
  }

  /** No append acknowledges past the end of the file, if it did not start there. */
  lemma AppendCommitsInFile(part: Part, sink: SinkView, c: Chunk, limit: nat)
    requires InStep(part, sink) && sink.committed <= |part.bytes|
    ensures var o := AppendSpec(part, sink, c, limit); o.sink.committed <= |o.part.bytes|
  {
    if c.offset == sink.committed <= limit { CopyLockstep(c.body, ReaderLimit(limit - c.offset), c.turns); }
  }

  lemma OpenKeepsCover(it: Item, env: Opening)
    requires SoundItem(it) && Covered(it)
    ensures Covered(WithSink(it, env).0)
  {
  }

  lemma ServeIsCovered(s: Server, call: nat, chunk: Chunk, env: Opening)
    requires Sound(s) && Covered(s.item)
    ensures Covered(ServerStep(s, Serve(call, chunk, env)).item)
  {
    OpenIsSound(s.item, env);
    OpenKeepsCover(s.item, env);
    var (open, ok) := WithSink(s.item, env);
    if ok { AppendKeepsCover(open.part.value, open.sink.value, chunk, s.item.size); }
    hide AppendSpec, OpenSpec, InStep;
  }

  lemma CommitIsCovered(it: Item, expected: Option<Digest>, opening: Opening, placing: Placing)
    requires SoundItem(it) && Covered(it)
    ensures Covered(FinishItem(it, expected, opening, placing).0)
  {
    OpenIsSound(it, opening);
    OpenKeepsCover(it, opening);
    hide OpenSpec;
  }

  lemma StepIsCovered(s: Server, e: ServerEvent)
    requires Sound(s) && Covered(s.item) && Answered(s) && !e.Fetch?
    requires e.Crash? ==> KeepsDurable(s.item.part, e.disk)
    ensures Covered(ServerStep(s, e).item) && Answered(ServerStep(s, e))
  {
    hide AppendSpec, CommitSpec, OpenSpec;
    match e
    case Serve(call, chunk, env) => ServeIsCovered(s, call, chunk, env);
    case Commit(expected, opening, placing) => CommitIsCovered(s.item, expected, opening, placing);
    case _ =>
  }

  lemma {:induction false} RunIsCovered(s: Server, es: seq<ServerEvent>)
    requires Sound(s) && Covered(s.item) && Answered(s) && NoFetch(es) && PowerCuts(s, es)
    ensures Covered(ServerRun(s, es).item) && Answered(ServerRun(s, es))
    decreases |es|
  {
    hide Sound, Covered, Answered, ServerStep;
    if es != [] {
      StepIsSound(s, es[0]);
      StepIsCovered(s, es[0]);
      RunIsCovered(ServerStep(s, es[0]), es[1..]);
    }
  }

  /** Whatever writes and syncs fail: an offset that was answered is covered by durable
  bytes until the item is placed or ended, so no opening after a power cut misses any. */
  lemma AnswersAreDurable(size: nat, es: seq<ServerEvent>, call: nat, env: Opening)
    requires NoFetch(es) && PowerCuts(NewServer(size), es)
    requires var s := ServerRun(NewServer(size), es); call in s.replies && !s.replies[call].Refused?
    ensures var s := ServerRun(NewServer(size), es); var it := s.item;
            && s.replies[call].committed <= it.stored
            && (!it.completed && !it.ended ==>
                  && s.replies[call].committed <= Durable(it)
                  && OpenSpec(it.part, it.sink, it.stored, env).result != ErrCommittedLoss)
  {
    RunIsCovered(NewServer(size), es);
  }

  // ------------------------------------------- exactly when integrity holds

  /** Every run whose commits carry `expected` places nothing or the source, and completes
  the item only with the source in place; `fetches` tells whether downloads of the item
  are served. */
  ghost predicate Faithful(size: nat, expected: Option<Digest>, source: seq<Byte>, fetches: bool) {
    forall es :: Carries(es, expected) && (fetches || NoFetch(es)) ==>
      Good(ServerRun(NewServer(size), es).item, source)
  }

  ghost predicate Good(it: Item, source: seq<Byte>) {
    (it.placed == None || it.placed == Some(source)) && (it.completed ==> it.placed == Some(source))
  }

  /** What a caller can check beforehand. From 2^63 bytes on the limited reader takes
  nothing in, so nothing is ever placed; below that a digest is needed unless nothing
  can be sent, and a digest of a log that cannot arise never lets anything through:
  one shorter than declared, or any but the empty one when nothing is declared. */
  predicate Guarded(size: nat, expected: Option<Digest>, source: seq<Byte>) {
    size >= U64 / 2
    || match expected
       case None => size == 0 && source == []
       case Some(digest) =>
         || |digest.log| < size
         || (|digest.log| == size && digest.log == source)
         || (|digest.log| > size && size == 0)
  }

  /** What limits the sizes at both ends of the range. */
  ghost predicate Limited(s: Server) {
    var it := s.item;
    && (it.size == 0 && it.sink.Some? ==> it.sink.value.log == [])
    && (U64 / 2 <= it.size ==>
          && it.stored == 0 && (it.sink.Some? ==> it.sink.value.committed == 0)
          && forall call <- s.calls :: s.calls[call].committed == 0)
  }

  lemma StepIsLimited(s: Server, e: ServerEvent)
    requires Sound(s) && Limited(s) && s.item.size < U64 && !e.Fetch?
    ensures Limited(ServerStep(s, e)) && ServerStep(s, e).item.size == s.item.size
  {
    hide CopySpec;
    match e
    case Serve(call, chunk, env) =>
      OpenIsSound(s.item, env);
      NothingIsRead(chunk.body, chunk.turns);
    case _ =>
  }

  /** Whatever a commit places under a guarded digest is the source. */
  lemma CommitStepIsGuarded(s: Server, e: ServerEvent, expected: Option<Digest>, source: seq<Byte>)
    requires Sound(s) && Limited(s) && Guarded(s.item.size, expected, source) && !e.Fetch?
    requires s.item.placed.Some? ==> s.item.placed.value == source
    requires e.Commit? ==> e.expected == expected
    ensures ServerStep(s, e).item.placed.Some? ==> ServerStep(s, e).item.placed.value == source
  {
    if e.Commit? { OpenIsSound(s.item, e.opening); }
  }

  lemma {:induction false} GuardedRun(s: Server, es: seq<ServerEvent>, expected: Option<Digest>, source: seq<Byte>)
    requires Sound(s) && Limited(s) && s.item.size < U64
    requires Guarded(s.item.size, expected, source) && Carries(es, expected) && NoFetch(es)
    requires s.item.placed.Some? ==> s.item.placed.value == source
    ensures Good(ServerRun(s, es).item, source)
    decreases |es|
  {
    hide Limited, Guarded, ServerStep;
    if es != [] {
      StepIsSound(s, es[0]);
      StepIsLimited(s, es[0]);
      CommitStepIsGuarded(s, es[0], expected, source);
      GuardedRun(ServerStep(s, es[0]), es[1..], expected, source);
    }
  }

  // ------------------------------------------------ runs that place something else

  const ALL_OPEN := Opening(true, true, true, true)
  const ALL_PLACE := Placing(true, true, true, true, true, true, true, true, true)

  /** An item of which `done` bytes were acknowledged and recorded, with this file and
  this hash log, and no call under way. */
  ghost predicate IsAt(s: Server, size: nat, file: seq<Byte>, log: seq<Byte>, done: nat) {
    var it := s.item;
    && s.calls == map[] && it.size == size && it.stored == done && it.placed == None && !it.completed && !it.ended
    && ((it.part == None && it.sink == None && file == [] && log == [] && done == 0)
        || (it.part.Some? && it.part.value.bytes == file && it.sink == Some(SinkView(log, done, false))))
  }

  /** One byte that is hashed and then written, or whose write fails with or without
  the byte on disk; and the record of what was acknowledged. */
  function OneByte(a: Byte, at: nat, writes: bool, lands: bool): seq<ServerEvent> {
    [Serve(0, Chunk(at, [a], [Read(1, Finish, if lands then 1 else 0, writes)], true), ALL_OPEN), Record(0)]
  }

  lemma CopyOfOneByte(a: Byte, left: nat, writes: bool, lands: bool)
    requires left > 0
    ensures CopySpec([a], left, [Read(1, Finish, if lands then 1 else 0, writes)])
            == if writes then CopyOut([a], [a], 1, true) else CopyOut([a], if lands then [a] else [], 0, false)
  {
    assert [a][..1] == [a] && [a][..0] == [];
  }

  lemma RunTwo(s: Server, e: ServerEvent, f: ServerEvent)
    ensures ServerRun(s, [e, f]) == ServerStep(ServerStep(s, e), f)
  {
    assert [e, f][1..] == [f] && [f][1..] == [];
    assert ServerRun(ServerStep(s, e), [f]) == ServerRun(ServerStep(ServerStep(s, e), f), []);
  }

  lemma OneByteMoves(s: Server, size: nat, file: seq<Byte>, log: seq<Byte>, done: nat, a: Byte,
                     writes: bool, lands: bool)
    requires IsAt(s, size, file, log, done) && done < size < U64 / 2
    ensures var t := ServerRun(s, OneByte(a, done, writes, lands));
            IsAt(t, size, file + (if writes || lands then [a] else []), log + [a], if writes then done + 1 else done)
  {
    var e := OneByte(a, done, writes, lands);
    hide CopySpec, ServerRun;
    RunTwo(s, e[0], e[1]);
    CopyOfOneByte(a, ReaderLimit(size - done), writes, lands);
  }

  lemma {:induction false} RunConcat(s: Server, es: seq<ServerEvent>, fs: seq<ServerEvent>)
    ensures ServerRun(s, es + fs) == ServerRun(ServerRun(s, es), fs)
    decreases |es|
  {
    hide ServerStep;
    if es == [] {
      assert es + fs == fs;
    } else {
      RunConcat(ServerStep(s, es[0]), es[1..], fs);
      assert (es + fs)[1..] == es[1..] + fs;
    }
  }

  ghost predicate NoCommit(es: seq<ServerEvent>) {
    forall e <- es :: !e.Commit? && !e.Fetch?
  }

  /** Pushing bytes one by one: written, or failed with or without landing. */
  lemma {:induction false} PushAll(s: Server, size: nat, file: seq<Byte>, log: seq<Byte>, done: nat,
                                   bytes: seq<Byte>, writes: bool, lands: bool) returns (es: seq<ServerEvent>)
    requires IsAt(s, size, file, log, done) && size < U64 / 2
    requires if writes then done + |bytes| <= size else done < size
    ensures NoCommit(es)
    ensures IsAt(ServerRun(s, es), size, file + (if writes || lands then bytes else []), log + bytes,
                 if writes then done + |bytes| else done)
    decreases |bytes|
  {
    hide ServerRun, IsAt;
    if bytes == [] {
      es := [];
      assert file + [] == file && log + [] == log;
      NothingRun(s);
    } else {
      var first := OneByte(bytes[0], done, writes, lands);
      OneByteMoves(s, size, file, log, done, bytes[0], writes, lands);
      var s1 := ServerRun(s, first);
      var file1 := file + (if writes || lands then [bytes[0]] else []);
      var done1 := if writes then done + 1 else done;
      var rest := PushAll(s1, size, file1, log + [bytes[0]], done1, bytes[1..], writes, lands);
      es := first + rest;
      RunConcat(s, first, rest);
      assert bytes == [bytes[0]] + bytes[1..];
      assert log + [bytes[0]] + bytes[1..] == log + bytes;
      assert file1 + (if writes || lands then bytes[1..] else []) == file + (if writes || lands then bytes else []);
    }
  }

  lemma NothingRun(s: Server)
    ensures ServerRun(s, []) == s
  {
  }

  /** A whole item is placed as it lies on the disk, if the digest matches the log. */
  lemma CommitPlaces(s: Server, size: nat, file: seq<Byte>, log: seq<Byte>, expected: Option<Digest>)
    requires IsAt(s, size, file, log, size) && (expected == None || expected == Some(Digest(log)))
    ensures ServerRun(s, [Commit(expected, ALL_OPEN, ALL_PLACE)]).item.placed == Some(file)
  {
    var e := Commit(expected, ALL_OPEN, ALL_PLACE);
    assert [e][1..] == [];
    assert ServerRun(s, [e]) == ServerRun(ServerStep(s, e), []);
  }

  /** Failing to write `lost` and then writing `rest` places what landed of the first and
  all of the second, under no digest or that of both. */
  lemma PlaceAfterLoss(lost: seq<Byte>, rest: seq<Byte>, lands: bool, expected: Option<Digest>)
    returns (es: seq<ServerEvent>)
    requires |rest| < U64 / 2 && (lost != [] ==> rest != [])
    requires expected == None || expected == Some(Digest(lost + rest))
    ensures Carries(es, expected) && NoFetch(es)
    ensures ServerRun(NewServer(|rest|), es).item.placed == Some((if lands then lost else []) + rest)
  {
    var s := NewServer(|rest|);
    var landed := if lands then lost else [];
    var failing: seq<ServerEvent> := [];
    assert IsAt(s, |rest|, [], [], 0);
    hide ServerRun, IsAt;
    NothingRun(s);
    assert [] + landed == landed && [] + lost == lost;
    if lost != [] {
      failing := PushAll(s, |rest|, [], [], 0, lost, false, lands);
    }
    var s1 := ServerRun(s, failing);
    var writing := PushAll(s1, |rest|, landed, lost, 0, rest, true, false);
    var commit := [Commit(expected, ALL_OPEN, ALL_PLACE)];
    es := failing + writing + commit;
    RunConcat(s, failing, writing);
    RunConcat(s, failing + writing, commit);
    CommitPlaces(ServerRun(s1, writing), |rest|, landed + rest, lost + rest, expected);
  }

  /** An absent digest is not checked: every file of the declared size can be placed. */
  lemma AbsentDigestIsUnchecked(file: seq<Byte>) returns (es: seq<ServerEvent>)
    requires |file| < U64 / 2
    ensures Carries(es, None) && NoFetch(es)
    ensures ServerRun(NewServer(|file|), es).item.placed == Some(file)
  {
    assert [] + file == file;
    es := PlaceAfterLoss([], file, false, None);
  }

  /** The declared size matters: under the digest of a source longer than declared, both
  the end of that source, of the declared size, and the whole of it can be placed. */
  lemma LongerSourceFools(size: nat, source: seq<Byte>) returns (es: seq<ServerEvent>, fs: seq<ServerEvent>)
    requires 0 < size < U64 / 2 && size < |source|
    ensures Carries(es, Some(Digest(source))) && Carries(fs, Some(Digest(source))) && NoFetch(es) && NoFetch(fs)
    ensures ServerRun(NewServer(size), es).item.placed == Some(source[|source| - size..])
    ensures ServerRun(NewServer(size), fs).item.placed == Some(source)
  {
    var lost, rest := source[..|source| - size], source[|source| - size..];
    assert lost + rest == source && [] + rest == rest;
    es := PlaceAfterLoss(lost, rest, false, Some(Digest(source)));
    fs := PlaceAfterLoss(lost, rest, true, Some(Digest(source)));
  }

  /** Whenever the guard fails, a run places something else. */
  lemma UnguardedRun(size: nat, expected: Option<Digest>, source: seq<Byte>) returns (es: seq<ServerEvent>)
    requires !Guarded(size, expected, source)
    ensures Carries(es, expected) && NoFetch(es)
    ensures var placed := ServerRun(NewServer(size), es).item.placed; placed.Some? && placed.value != source
  {
    match expected
    case None =>
      var zeros, ones: seq<Byte> := seq(size, _ => 0), seq(size, _ => 1);
      var file := if zeros != source then zeros else ones;
      assert size > 0 ==> zeros[0] != ones[0];
      es := AbsentDigestIsUnchecked(file);
    case Some(digest) =>
      if |digest.log| == size {
        assert [] + digest.log == digest.log;
        es := PlaceAfterLoss([], digest.log, false, expected);
      } else {
        var other;
        es, other := LongerSourceFools(size, digest.log);
        if source != digest.log { es := other; }
      }
  }

  /** One download completes an item of any size with nothing placed. */
  lemma DownloadCompletesNothing(size: nat)
    ensures var it := ServerRun(NewServer(size), [Fetch(0, size, false)]).item; it.completed && it.placed == None
  {
    var e := Fetch(0, size, false);
    assert [e][1..] == [];
    assert ServerRun(NewServer(size), [e]) == ServerRun(ServerStep(NewServer(size), e), []);
  }

  /** And it takes the worth out of the digest: when the writes fail after the hash and a
  download records the item as whole, a commit under the right digest places an empty
  file. */
  lemma DownloadDefeatsDigest(size: nat, source: seq<Byte>) returns (es: seq<ServerEvent>)
    requires 0 < size < U64 / 2
    ensures Carries(es, Some(Digest(source)))
    ensures ServerRun(NewServer(size), es).item.placed == Some([])
    ensures forall e <- es :: e.Fetch? ==> e.broken
  {
    var s := NewServer(size);
    assert IsAt(s, size, [], [], 0);
    var failing := PushAll(s, size, [], [], 0, source, false, false);
    var empty: seq<Byte> := [];
    assert empty + [] == [] && empty + source == source;
    var s1 := ServerRun(s, failing);
    var opening, fetching := Serve(0, Chunk(0, [], [], true), ALL_OPEN), Fetch(0, size, true);
    var commit := Commit(Some(Digest(source)), ALL_OPEN, ALL_PLACE);
    es := failing + [opening, Record(0)] + [fetching, commit];
    hide ServerRun, ServerStep, IsAt;
    RunConcat(s, failing, [opening, Record(0)]);
    RunConcat(s, failing + [opening, Record(0)], [fetching, commit]);
    RunTwo(s1, opening, Record(0));
    EmptyChunkOpens(s1, size, source);
    var s2 := ServerStep(ServerStep(s1, opening), Record(0));
    RunTwo(s2, fetching, commit);
    FetchThenCommit(s2, size, source);
  }

  lemma CopyOfNothing(left: nat)
    ensures CopySpec([], left, []) == CopyOut([], [], 0, false)
  {
  }

  lemma EmptyChunkOpens(s: Server, size: nat, log: seq<Byte>)
    requires IsAt(s, size, [], log, 0)
    ensures var t := ServerStep(ServerStep(s, Serve(0, Chunk(0, [], [], true), ALL_OPEN)), Record(0));
            IsAt(t, size, [], log, 0) && t.item.sink.Some?
  {
    hide CopySpec;
    CopyOfNothing(ReaderLimit(size));
    var empty: seq<Byte> := [];
    assert empty + [] == [] && log + [] == log;
  }

  lemma FetchThenCommit(s: Server, size: nat, log: seq<Byte>)
    requires IsAt(s, size, [], log, 0) && s.item.sink.Some? && 0 < size
    ensures ServerStep(ServerStep(s, Fetch(0, size, true)), Commit(Some(Digest(log)), ALL_OPEN, ALL_PLACE)).item.placed
            == Some([])
  {
  }

  /** Integrity holds exactly when no download of the item is served and the guard holds,
  for every declared size, every digest and every source. */
  lemma IntegrityExactlyWhen(size: nat, expected: Option<Digest>, source: seq<Byte>, fetches: bool)
    requires size < U64
    ensures Faithful(size, expected, source, fetches) <==> !fetches && Guarded(size, expected, source)
  {
    hide Guarded, ServerRun;
    if fetches {
      var es := [Fetch(0, size, false)];
      DownloadCompletesNothing(size);
      assert Carries(es, expected);
      assert !Good(ServerRun(NewServer(size), es).item, source);
    } else if Guarded(size, expected, source) {
      forall es | Carries(es, expected) && NoFetch(es) ensures Good(ServerRun(NewServer(size), es).item, source) {
        GuardedRun(NewServer(size), es, expected, source);
      }
    } else {
      var es := UnguardedRun(size, expected, source);
      assert Carries(es, expected) && NoFetch(es);
      assert !Good(ServerRun(NewServer(size), es).item, source);
    }
  }
}
