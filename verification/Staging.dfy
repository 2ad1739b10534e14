/**
The receiving end of an upload: the copy loop, the staged file and the sink.

The functions on values say what one operation does to one item; the environment
(which bytes arrive, which writes and syncs fail) is an argument of each of them.
The classes in `Sinks` update their fields in place, as the program does, and are
proved to compute exactly those functions.
*/
module Staging {
  import opened Common

  /** The copy buffer, in bytes. */
  const BUFFER_SIZE: nat := 256 * 1024

  /** BLAKE2b, idealised: the digest of a log of bytes determines the log. */
  datatype Digest = Digest(log: seq<Byte>)

  /** A staged file on disk. A power cut keeps the first `durable` bytes. */
  datatype Part = Part(bytes: seq<Byte>, durable: nat)

  /** What a sink remembers between chunks. */
  datatype SinkView = SinkView(log: seq<Byte>, committed: nat, closed: bool)

  // ---------------------------------------------------------------- copying

  /** How a read from the request body ended. `Go` is a read without an error. */
  datatype End = Go | Finish | Break

  /** One pass through the copy loop, as the environment decides it.

  `want` bounds how many bytes the connection delivers, `landed` how many bytes
  of a failed write reached the file anyway. `Finish` is the end of the body and
  can be reported only once the whole body was delivered: a dropped connection
  is a `Break`. */
  datatype Turn = Cancel | Read(want: nat, end: End, landed: nat, writes: bool)

  /** What one copy did: the bytes it hashed, the bytes that reached the file, how
  many it counted as written, and whether it ended at the end of the body. */
  datatype CopyOut = CopyOut(hashed: seq<Byte>, filed: seq<Byte>, written: nat, ok: bool)

  /** How many bytes one read yields from a body behind a limit of `left` bytes. */
  function Available(body: seq<Byte>, left: nat, want: nat): nat {
    Min(want, Min(BUFFER_SIZE, Min(left, |body|)))
  }

  function EndOf(body: seq<Byte>, left: nat, t: Turn): End
    requires t.Read?
  {
    if left == 0 then Finish
    else if t.end == Finish && Available(body, left, t.want) != |body| then Go
    else t.end
  }

  /** The copy loop: hash a chunk, write it, count it. */
  function CopySpec(body: seq<Byte>, left: nat, turns: seq<Turn>): CopyOut
    decreases |turns|
  {
    if |turns| == 0 || turns[0].Cancel? then CopyOut([], [], 0, false)
    else
      var t := turns[0];
      var n := Available(body, left, t.want);
      var data := body[..n];
      if n > 0 && !t.writes then CopyOut(data, data[..Min(t.landed, n)], 0, false)
      else if EndOf(body, left, t) == Finish then CopyOut(data, data, n, true)
      else if EndOf(body, left, t) == Break then CopyOut(data, data, n, false)
      else
        var o := CopySpec(body[n..], left - n, turns[1..]);
        CopyOut(data + o.hashed, data + o.filed, n + o.written, o.ok)
  }

  /** A pass that goes on: the loop's outcome is this chunk and then the rest's. */
  ghost predicate GoesOn(body: seq<Byte>, left: nat, turns: seq<Turn>) {
    && |turns| > 0 && turns[0].Read? && EndOf(body, left, turns[0]) == Go
    && (turns[0].writes || Available(body, left, turns[0].want) == 0)
  }

  /** What one copy promises: the hash is never behind the file. What was hashed is a
  prefix of the body, at least as long as what was written, and when no longer the
  very same bytes went to the file. */
  ghost predicate Lockstep(body: seq<Byte>, left: nat, o: CopyOut) {
    && o.hashed <= body && |o.hashed| <= left
    && o.filed <= o.hashed && o.written <= |o.filed|
  }

  lemma CopyEndsInStep(body: seq<Byte>, left: nat, turns: seq<Turn>)
    requires !GoesOn(body, left, turns)
    ensures Lockstep(body, left, CopySpec(body, left, turns))
  {
  }

  lemma StepThenRest(body: seq<Byte>, left: nat, n: nat, o: CopyOut)
    requires n <= |body| && n <= left && Lockstep(body[n..], left - n, o)
    ensures Lockstep(body, left, CopyOut(body[..n] + o.hashed, body[..n] + o.filed, n + o.written, o.ok))
  {
  }

  lemma {:induction false} CopyLockstep(body: seq<Byte>, left: nat, turns: seq<Turn>)
    ensures Lockstep(body, left, CopySpec(body, left, turns))
    decreases |turns|
  {
    if GoesOn(body, left, turns) {
      var n := Available(body, left, turns[0].want);
      CopyLockstep(body[n..], left - n, turns[1..]);
      StepThenRest(body, left, n, CopySpec(body[n..], left - n, turns[1..]));
    } else {
      CopyEndsInStep(body, left, turns);
    }
  }

  ghost predicate AllWrite(turns: seq<Turn>) {
    forall t <- turns :: t.Read? ==> t.writes
  }

  /** With a disk that takes every write, file and hash grow by the same bytes,
  and a copy that ends well has moved the whole body, up to the limit. */
  lemma {:induction false} CopyExact(body: seq<Byte>, left: nat, turns: seq<Turn>)
    requires AllWrite(turns)
    ensures var o := CopySpec(body, left, turns);
            && o.written == |o.hashed|
            && (o.ok ==> o.written == Min(|body|, left))
    decreases |turns|
  {
    if |turns| == 0 || turns[0].Cancel? {
    } else {
      var t := turns[0];
      assert t.writes;
      var n := Available(body, left, t.want);
      if EndOf(body, left, t) == Go {
        CopyExact(body[n..], left - n, turns[1..]);
      }
    }
  }

  /** A copy that ended well moved the whole body, up to the limit. */
  lemma {:induction false} GoodCopyIsWhole(body: seq<Byte>, left: nat, turns: seq<Turn>)
    requires CopySpec(body, left, turns).ok
    ensures CopySpec(body, left, turns).written == Min(|body|, left)
    decreases |turns|
  {
    if GoesOn(body, left, turns) {
      var n := Available(body, left, turns[0].want);
      GoodCopyIsWhole(body[n..], left - n, turns[1..]);
    }
  }

  /** A copy that ended well wrote everything it hashed, and counted all of it. */
  lemma {:induction false} GoodCopyCounts(body: seq<Byte>, left: nat, turns: seq<Turn>)
    requires CopySpec(body, left, turns).ok
    ensures var o := CopySpec(body, left, turns); o.hashed == o.filed && o.written == |o.hashed|
    decreases |turns|
  {
    if GoesOn(body, left, turns) {
      var n := Available(body, left, turns[0].want);
      GoodCopyCounts(body[n..], left - n, turns[1..]);
    }
  }

  /** What a pass that goes on leads to. */
  lemma CopyUnfolds(body: seq<Byte>, left: nat, turns: seq<Turn>)
    requires GoesOn(body, left, turns)
    ensures var n := Available(body, left, turns[0].want);
            var o := CopySpec(body[n..], left - n, turns[1..]);
            CopySpec(body, left, turns) == CopyOut(body[..n] + o.hashed, body[..n] + o.filed, n + o.written, o.ok)
  {
  }

  /** The count and the hash of a copy whose write fails at the first pass. */
  lemma FirstWriteFails(body: seq<Byte>, left: nat, want: nat, landed: nat, rest: seq<Turn>)
    ensures var o := CopySpec(body, left, [Read(want, Break, landed, false)] + rest);
            && o.written == 0 == CopySpec(body, left, []).written
            && o.hashed == CopySpec(body, left, [Read(want, Break, landed, true)]).hashed
  {
  }

  lemma EndedCopyIgnoresRest(body: seq<Byte>, left: nat, turns: seq<Turn>, rest: seq<Turn>)
    requires turns != [] && !GoesOn(body, left, turns)
    ensures CopySpec(body, left, turns + rest) == CopySpec(body, left, turns)
  {
    assert (turns + rest)[0] == turns[0];
  }

  /** A write that fails after some passes counts for nothing, whatever of it landed and
  whatever could still come, and yet it is hashed as if it had succeeded. */
  lemma {:induction false} FailedWriteIsHashedNotCounted(body: seq<Byte>, left: nat, turns: seq<Turn>, want: nat,
                                                         landed: nat, rest: seq<Turn>)
    ensures var o := CopySpec(body, left, turns + ([Read(want, Break, landed, false)] + rest));
            && o.written == CopySpec(body, left, turns).written
            && o.hashed == CopySpec(body, left, turns + [Read(want, Break, landed, true)]).hashed
    decreases |turns|
  {
    hide CopySpec;
    var bad, good := [Read(want, Break, landed, false)] + rest, [Read(want, Break, landed, true)];
    if turns == [] {
      assert turns + bad == bad && turns + good == good;
      FirstWriteFails(body, left, want, landed, rest);
    } else if GoesOn(body, left, turns) {
      assert (turns + bad)[1..] == turns[1..] + bad && (turns + good)[1..] == turns[1..] + good;
      CopyUnfolds(body, left, turns + bad);
      CopyUnfolds(body, left, turns + good);
      CopyUnfolds(body, left, turns);
      var n := Available(body, left, turns[0].want);
      FailedWriteIsHashedNotCounted(body[n..], left - n, turns[1..], want, landed, rest);
    } else {
      EndedCopyIgnoresRest(body, left, turns, bad);
      EndedCopyIgnoresRest(body, left, turns, good);
    }
  }

  /** A connection that delivers a body of `n` bytes and says so, to a disk that takes it. */
  ghost predicate Flows(turns: seq<Turn>, n: nat) {
    && n < |turns| && turns[|turns| - 1].Read? && turns[|turns| - 1].end == Finish
    && forall t <- turns :: t.Read? && t.writes && t.want > 0 && t.end != Break
  }

  /** Such a body is taken in whole. */
  lemma {:induction false} FlowingCopyIsWhole(body: seq<Byte>, left: nat, turns: seq<Turn>)
    requires |body| <= left && Flows(turns, |body|)
    ensures CopySpec(body, left, turns) == CopyOut(body, body, |body|, true)
    decreases |turns|
  {
    hide CopySpec;
    assert turns[0] in turns;
    if GoesOn(body, left, turns) {
      var n := Available(body, left, turns[0].want);
      CopyUnfolds(body, left, turns);
      assert turns[1..][|turns| - 2] == turns[|turns| - 1];
      FlowingCopyIsWhole(body[n..], left - n, turns[1..]);
      assert body[..n] + body[n..] == body;
    } else {
      LastPassTakesRest(body, left, turns);
    }
  }

  lemma LastPassTakesRest(body: seq<Byte>, left: nat, turns: seq<Turn>)
    requires |body| <= left && Flows(turns, |body|) && !GoesOn(body, left, turns)
    ensures CopySpec(body, left, turns) == CopyOut(body, body, |body|, true)
  {
    assert turns[0] in turns;
    assert body[..|body|] == body;
  }

  // --------------------------------------------------------------- appending

  datatype AppendResult = Appended | ErrClosed | ErrMismatch | ErrBeyond | ErrSync | ErrCopy

  datatype AppendOut = AppendOut(part: Part, sink: SinkView, committed: nat, result: AppendResult)

  /** A chunk request: where the sender believes the file ends, and its body,
  with what the connection and the disk do while it is served. */
  datatype Chunk = Chunk(offset: nat, body: seq<Byte>, turns: seq<Turn>, syncs: bool)

  /** The bound of the limited reader: a remainder that does not fit a signed
  64-bit integer turns negative, and a negative limit reads nothing. */
  function ReaderLimit(remaining: nat): nat {
    if remaining < U64 / 2 then remaining else 0
  }

  /** What an append makes of a copy: bytes written are acknowledged, once synced. */
  function Acknowledge(part: Part, sink: SinkView, o: CopyOut, syncs: bool): AppendOut {
    var file := part.bytes + o.filed;
    var hashed := sink.(log := sink.log + o.hashed);
    if o.written > 0 && !syncs then
      AppendOut(Part(file, part.durable), hashed, sink.committed, ErrSync)
    else
      var committed := sink.committed + o.written;
      AppendOut(Part(file, if o.written > 0 then |file| else part.durable),
                hashed.(committed := committed), committed, if o.ok then Appended else ErrCopy)
  }

  function AppendSpec(part: Part, sink: SinkView, c: Chunk, limit: nat): AppendOut {
    if sink.closed then AppendOut(part, sink, 0, ErrClosed)
    else if c.offset != sink.committed then AppendOut(part, sink, sink.committed, ErrMismatch)
    else if c.offset > limit then AppendOut(part, sink, sink.committed, ErrBeyond)
    else Acknowledge(part, sink, CopySpec(c.body, ReaderLimit(limit - c.offset), c.turns), c.syncs)
  }

  /** The invariant everything rests on. The hash may run ahead of the file, but a
  sink that hashed exactly what it acknowledged hashed exactly what is on disk. */
  ghost predicate InStep(part: Part, sink: SinkView) {
    && !sink.closed
    && sink.committed <= |sink.log|
    && (|sink.log| == sink.committed ==> sink.log == part.bytes)
  }

  /** Every append keeps the hash in step, whatever fails in it, acknowledges at
  most the declared size and never takes an acknowledgement back. */
  lemma AppendKeepsStep(part: Part, sink: SinkView, c: Chunk, limit: nat)
    requires InStep(part, sink) && sink.committed <= limit
    ensures var o := AppendSpec(part, sink, c, limit);
            && InStep(o.part, o.sink)
            && sink.committed <= o.sink.committed <= limit
            && o.committed == o.sink.committed
            && part.bytes <= o.part.bytes
  {
    if c.offset == sink.committed {
      CopyLockstep(c.body, ReaderLimit(limit - c.offset), c.turns);
    }
  }

  /** An append that ended well started at the sink's offset and took the whole body. */
  lemma AppendIsWhole(p: Part, k: SinkView, c: Chunk, limit: nat)
    requires !k.closed && k.committed <= limit < U64 / 2 && c.offset + |c.body| <= limit
    ensures var a := AppendSpec(p, k, c, limit);
            && (a.result == Appended ==> c.offset == k.committed && a.committed == c.offset + |c.body|)
            && (a.result == ErrMismatch ==> c.offset != k.committed == a.committed)
  {
    hide CopySpec;
    var left := ReaderLimit(limit - c.offset);
    if CopySpec(c.body, left, c.turns).ok { GoodCopyIsWhole(c.body, left, c.turns); }
  }

  /** Which bytes an append acknowledges. Only a sync that succeeded lets the offset rise,
  and then the whole file is durable; bytes whose sync failed leave the offset and what
  is durable as they were, and an append that put any into the file is an error then. */
  lemma AppendIsDurable(part: Part, sink: SinkView, c: Chunk, limit: nat)
    requires InStep(part, sink) && sink.committed <= limit
    ensures var o := AppendSpec(part, sink, c, limit);
            && (o.sink.committed > sink.committed ==> c.syncs && o.part.durable == |o.part.bytes|)
            && (o.part.durable != part.durable ==> c.syncs && o.part.durable == |o.part.bytes|)
            && (!c.syncs && o.part.bytes != part.bytes ==>
                  o.result == ErrSync || (o.result == ErrCopy && !AllWrite(c.turns)))
  {
    if c.offset == sink.committed {
      var left := ReaderLimit(limit - c.offset);
      var o := CopySpec(c.body, left, c.turns);
      hide CopySpec;
      if o.ok { GoodCopyCounts(c.body, left, c.turns); }
      if AllWrite(c.turns) { CopyExact(c.body, left, c.turns); }
      CopyLockstep(c.body, left, c.turns);
    }
    assert part.bytes + [] == part.bytes;
  }

  /** On a disk that takes every write and sync, all that reached the file is acknowledged,
  also of a body that broke off. */
  lemma AppendAcknowledgesAll(part: Part, sink: SinkView, c: Chunk, limit: nat)
    requires !sink.closed && AllWrite(c.turns) && c.syncs
    ensures var o := AppendSpec(part, sink, c, limit); var n := o.sink.committed - sink.committed;
            && 0 <= n <= |c.body|
            && o.part.bytes == part.bytes + c.body[..n] && o.sink.log == sink.log + c.body[..n]
  {
    assert part.bytes + [] == part.bytes && sink.log + [] == sink.log && c.body[..0] == [];
    if c.offset == sink.committed <= limit {
      var left := ReaderLimit(limit - c.offset);
      CopyExact(c.body, left, c.turns);
      CopyLockstep(c.body, left, c.turns);
      var o := CopySpec(c.body, left, c.turns);
      hide CopySpec;
      assert o.filed == o.hashed == c.body[..o.written];
    }
  }

  /** Every way an append can end, and the offset it answers: a refused chunk touches
  neither file nor hash. */
  lemma AppendAnswers(part: Part, sink: SinkView, c: Chunk, limit: nat)
    ensures var o := AppendSpec(part, sink, c, limit);
            && (o.result == ErrClosed <==> sink.closed)
            && (o.result == ErrMismatch <==> !sink.closed && c.offset != sink.committed)
            && (o.result == ErrBeyond <==> !sink.closed && c.offset == sink.committed > limit)
            && (o.result in {ErrClosed, ErrMismatch, ErrBeyond} ==> o.part == part && o.sink == sink)
            && o.committed == if sink.closed then 0 else o.sink.committed
  {
  }

  /** A whole chunk at the sink's offset that the connection delivers and the disk takes. */
  lemma AppendTakesAll(part: Part, sink: SinkView, c: Chunk, limit: nat)
    requires !sink.closed && c.offset == sink.committed && c.offset + |c.body| <= limit < U64 / 2
    requires c.syncs && Flows(c.turns, |c.body|)
    ensures var o := AppendSpec(part, sink, c, limit);
            && o.result == Appended && o.committed == sink.committed + |c.body|
            && o.part.bytes == part.bytes + c.body
            && o.sink == SinkView(sink.log + c.body, sink.committed + |c.body|, false)
            && (c.body != [] ==> o.part.durable == |o.part.bytes|)
  {
    FlowingCopyIsWhole(c.body, ReaderLimit(limit - c.offset), c.turns);
  }

  lemma NothingIsRead(body: seq<Byte>, turns: seq<Turn>)
    ensures CopySpec(body, 0, turns).hashed == [] && CopySpec(body, 0, turns).filed == []
    ensures CopySpec(body, 0, turns).written == 0
  {
    CopyLockstep(body, 0, turns);
  }

  /** Nothing is taken in while 2^63 bytes or more are missing, and an append can still
  end well: the offset it acknowledges is the old one, so a sender repeats the chunk. */
  lemma HugeRemainderTakesNothing(part: Part, sink: SinkView, c: Chunk, limit: nat)
    requires !sink.closed && c.offset == sink.committed && sink.committed + U64 / 2 <= limit
    ensures var o := AppendSpec(part, sink, c, limit);
            && o.part.bytes == part.bytes && o.sink == sink && o.committed == sink.committed
            && (c.turns == [Read(|c.body|, Finish, 0, true)] ==> o.result == Appended)
  {
    NothingIsRead(c.body, c.turns);
    assert part.bytes + [] == part.bytes && sink.log + [] == sink.log;
  }

  // -------------------------------------------------- opening and committing

  /** What the file system does while a sink is opened. */
  datatype Opening = Opening(opens: bool, truncates: bool, seeks: bool, rehashes: bool)

  datatype OpenResult = Opened | ErrOpen | ErrCommittedLoss

  datatype OpenOut = OpenOut(part: Option<Part>, sink: Option<SinkView>, result: OpenResult)

  function CutBack(p: Part, n: nat): Part
    requires n <= |p.bytes|
  {
    if n == |p.bytes| then p else Part(p.bytes[..n], Min(p.durable, n))
  }

  /** Opening an item whose record says `committed` bytes are durable. */
  function OpenSpec(part: Option<Part>, sink: Option<SinkView>, committed: nat, env: Opening): OpenOut {
    if sink.Some? then OpenOut(part, sink, Opened)
    else if !env.opens then OpenOut(part, None, ErrOpen)
    else
      var p := if part.Some? then part.value else Part([], 0);
      if |p.bytes| < committed then OpenOut(Some(p), None, ErrCommittedLoss)
      else if |p.bytes| > committed && !env.truncates then OpenOut(Some(p), None, ErrOpen)
      else
        var q := CutBack(p, committed);
        if |p.bytes| > committed && !env.seeks then OpenOut(Some(q), None, ErrOpen)
        else if committed > 0 && !env.rehashes then OpenOut(Some(q), None, ErrOpen)
        else OpenOut(Some(q), Some(SinkView(q.bytes[..committed], committed, false)), Opened)
  }

  /** Every way an opening can end, when no sink is open. It reports a loss exactly when
  the file is shorter than the record, and succeeds exactly when the file opens, is long
  enough, can be cut back if it is too long, and can be read if there is anything in it.
  The file is then exactly what was recorded, and nothing of that is ever lost. */
  lemma OpenOutcomes(part: Option<Part>, committed: nat, env: Opening)
    requires part.Some? ==> part.value.durable <= |part.value.bytes|
    ensures var o := OpenSpec(part, None, committed, env);
            var file := if part.Some? then part.value else Part([], 0);
            && (o.result == ErrCommittedLoss <==> env.opens && |file.bytes| < committed)
            && (o.result == Opened <==>
                  && env.opens && |file.bytes| >= committed
                  && (|file.bytes| > committed ==> env.truncates && env.seeks) && (committed > 0 ==> env.rehashes))
            && (o.result == Opened ==>
                  && o.part == Some(Part(file.bytes[..committed], Min(file.durable, committed)))
                  && o.sink == Some(SinkView(file.bytes[..committed], committed, false)))
            && (o.result != Opened ==> o.sink == None)
            && (!env.opens ==> o.part == part) && (env.opens ==> o.part.Some?)
            && (env.opens && |file.bytes| <= committed ==> o.part == Some(file))
            && (env.opens && |file.bytes| > committed ==>
                  o.part == Some(if env.truncates then Part(file.bytes[..committed], Min(file.durable, committed))
                                 else file))
  {
    var file := if part.Some? then part.value else Part([], 0);
    assert file.bytes[..|file.bytes|] == file.bytes;
    if committed <= |file.bytes| { assert file.bytes[..committed][..committed] == file.bytes[..committed]; }
  }

  /** Whether a destination is found, what the file system does while a verified file is
  moved there, and whether what is left of a failed one can be removed. */
  datatype Placing = Placing(resolves: bool, syncs: bool, closes: bool, makesDir: bool, renames: bool,
                             copies: bool, removes: bool, permits: bool, cleans: bool)

  datatype CommitResult = Committed | ErrChecksum | ErrPlacing

  /** `placed` is what the final path received, if anything. */
  datatype CommitOut = CommitOut(part: Option<Part>, placed: Option<seq<Byte>>, result: CommitResult)

  /** An absent digest is not checked; the program treats an empty one that way. */
  function CommitSpec(part: Part, computed: Digest, expected: Option<Digest>, env: Placing): CommitOut {
    if !env.syncs then CommitOut(Some(part), None, ErrPlacing)
    else
      var synced := Part(part.bytes, |part.bytes|);
      if !env.closes then CommitOut(Some(synced), None, ErrPlacing)
      else if expected.Some? && expected.value != computed then
        CommitOut(if env.removes then None else Some(synced), None, ErrChecksum)
      else if !env.makesDir then CommitOut(Some(synced), None, ErrPlacing)
      else if env.renames then
        CommitOut(None, Some(part.bytes), if env.permits then Committed else ErrPlacing)
      else if !env.copies then CommitOut(Some(synced), None, ErrPlacing)
      else if !env.removes then CommitOut(Some(synced), Some(part.bytes), ErrPlacing)
      else CommitOut(None, Some(part.bytes), if env.permits then Committed else ErrPlacing)
  }

  /** Every way a commit can end. A mismatch is reported exactly when a file that was synced
  and closed has another digest, and places nothing; the bytes reach the final path
  exactly when they match and could be moved, by either means; and what matched is never
  lost: it is placed or still staged. */
  lemma CommitOutcomes(part: Part, computed: Digest, expected: Option<Digest>, env: Placing)
    ensures var o := CommitSpec(part, computed, expected, env);
            var matches := expected.Some? ==> expected.value == computed;
            && (o.result == ErrChecksum <==> env.syncs && env.closes && !matches)
            && (o.placed.Some? <==> env.syncs && env.closes && matches && env.makesDir && (env.renames || env.copies))
            && (o.placed.Some? ==> o.placed.value == part.bytes)
            && (o.result == Committed <==> o.placed.Some? && (env.renames || env.removes) && env.permits)
            && (o.part.None? <==> if o.placed.Some? then env.renames || env.removes
                                  else o.result == ErrChecksum && env.removes)
            && (o.part.Some? ==> o.part.value.bytes == part.bytes
                                 && (o.part.value.durable == if env.syncs then |part.bytes| else part.durable))
  {
  }

  /** The heart of integrity: a sink in step that acknowledged `size` bytes can
  place, under the digest of a source of that size, nothing but the source. */
  lemma CommitPlacesSource(part: Part, sink: SinkView, source: seq<Byte>, env: Placing)
    requires InStep(part, sink) && sink.committed == |source|
    ensures var o := CommitSpec(part, Digest(sink.log), Some(Digest(source)), env);
            && (o.placed.Some? ==> o.placed.value == source)
            && (o.result == Committed ==> o.placed.Some?)
            && (o.result == ErrChecksum ==> sink.log != source)
  {
  }
}
