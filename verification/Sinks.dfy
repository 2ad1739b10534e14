/**
The receiving end as the program runs it: objects that change in place. Every method
is proved to do what the functions of `Staging` and `Upload` say, so what is proved
there about runs holds of sequences of calls here.
*/
module Sinks {
  import opened Common
  import opened Staging
  import opened Upload

  /** The file system, as far as staging uses it. */
  class Disk {
    var parts: map<string, Part>
    var placed: map<string, seq<Byte>>

    constructor ()
      ensures parts == map[] && placed == map[]
    {
      parts, placed := map[], map[];
    }
  }

  class Hasher {
    var log: seq<Byte>

    constructor ()
      ensures log == []
    {
      log := [];
    }

    method Write(chunk: seq<Byte>)
      modifies this
      ensures log == old(log) + chunk
    {
      log := log + chunk;
    }

    method Sum() returns (d: Digest)
      ensures d == Digest(log)
    {
      d := Digest(log);
    }
  }

  /** A request body behind a limited reader. */
  class Body {
    var bytes: seq<Byte>
    var left: nat

    constructor (bytes: seq<Byte>, left: nat)
      ensures this.bytes == bytes && this.left == left
    {
      this.bytes, this.left := bytes, left;
    }

    method Read(t: Turn) returns (chunk: seq<Byte>, end: End)
      requires t.Read?
      modifies this
      ensures var n := Available(old(bytes), old(left), t.want);
              && chunk == old(bytes)[..n] && bytes == old(bytes)[n..] && left == old(left) - n
              && end == EndOf(old(bytes), old(left), t)
    {
      var n := Available(bytes, left, t.want);
      end := EndOf(bytes, left, t);
      chunk, bytes, left := bytes[..n], bytes[n..], left - n;
    }
  }

  class StagedFile {
    const disk: Disk
    const key: string
    var finalPath: string
    var closed: bool

    constructor (disk: Disk, key: string)
      ensures this.disk == disk && this.key == key && !closed
    {
      this.disk, this.key, finalPath, closed := disk, key, "", false;
    }

    ghost predicate Present()
      reads this, disk
    {
      key in disk.parts
    }

    ghost function File(): Part
      reads this, disk
      requires Present()
    {
      disk.parts[key]
    }

    /** Appends a chunk, or as much of it as lands before the write fails. */
    method Write(chunk: seq<Byte>, t: Turn) returns (ok: bool)
      requires Present() && t.Read?
      modifies disk`parts
      ensures ok == (t.writes || chunk == [])
      ensures disk.parts == old(disk.parts)[key := old(File()).(bytes :=
                old(File()).bytes + if ok then chunk else chunk[..Min(t.landed, |chunk|)])]
    {
      ok := t.writes || chunk == [];
      var landed := if ok then chunk else chunk[..Min(t.landed, |chunk|)];
      var p := disk.parts[key];
      disk.parts := disk.parts[key := p.(bytes := p.bytes + landed)];
    }

    method Sync(ok: bool)
      requires Present()
      modifies disk`parts
      ensures disk.parts == if ok then old(disk.parts)[key := old(File()).(durable := |old(File()).bytes|)]
                            else old(disk.parts)
    {
      if ok {
        var p := disk.parts[key];
        disk.parts := disk.parts[key := p.(durable := |p.bytes|)];
      }
    }

    /** Cuts the file back and moves to its new end. */
    method Truncate(n: nat, cuts: bool, seeks: bool) returns (ok: bool)
      requires Present() && n <= |File().bytes|
      modifies disk`parts
      ensures ok == (cuts && seeks)
      ensures disk.parts == if cuts then old(disk.parts)[key := CutBack(old(File()), n)] else old(disk.parts)
    {
      if cuts {
        var p := disk.parts[key];
        if n < |p.bytes| {
          disk.parts := disk.parts[key := Part(p.bytes[..n], Min(p.durable, n))];
        }
      }
      ok := cuts && seeks;
    }

    method Close(ok: bool) returns (done: bool)
      modifies this`closed
      ensures closed && done == (old(closed) || ok)
    {
      done := closed || ok;
      closed := true;
    }

    /** Verifies the digest and moves the file into place. */
    method Commit(computed: Digest, expected: Option<Digest>, env: Placing) returns (result: CommitResult)
      requires Present() && !closed
      modifies this`closed, disk
      ensures var out := CommitSpec(old(File()), computed, expected, env);
              && result == out.result
              && disk.parts == (if out.part.Some? then old(disk.parts)[key := out.part.value]
                                else old(disk.parts) - {key})
              && disk.placed == (if out.placed.Some? then old(disk.placed)[finalPath := out.placed.value]
                                 else old(disk.placed))
    {
      Sync(env.syncs);
      if !env.syncs {
        assert disk.parts == old(disk.parts)[key := old(File())];
        return ErrPlacing;
      }
      var closes := Close(env.closes);
      if !closes {
        return ErrPlacing;
      }
      if expected.Some? && expected.value != computed {
        if env.removes {
          disk.parts := disk.parts - {key};
        }
        return ErrChecksum;
      }
      if !env.makesDir {
        return ErrPlacing;
      }
      if env.renames {
        disk.placed := disk.placed[finalPath := disk.parts[key].bytes];
        disk.parts := disk.parts - {key};
      } else {
        var moved := CrossDeviceMove(env.copies, env.removes);
        if !moved {
          return ErrPlacing;
        }
      }
      result := if env.permits then Committed else ErrPlacing;
    }

    /** Copies to a temporary name beside the destination and renames from there, so
    the final path goes from nothing to the whole file in one step. */
    method CrossDeviceMove(copies: bool, removes: bool) returns (ok: bool)
      requires Present()
      modifies disk
      ensures ok == (copies && removes)
      ensures disk.placed == if copies then old(disk.placed)[finalPath := old(File()).bytes] else old(disk.placed)
      ensures disk.parts == if copies && removes then old(disk.parts) - {key} else old(disk.parts)
    {
      var tmp := StreamFile(disk.parts[key].bytes);
      if !copies {
        return false;
      }
      disk.placed := disk.placed[finalPath := tmp];
      if removes {
        disk.parts := disk.parts - {key};
      }
      return removes;
    }

    /** Closes the file and deletes it; the deletion may fail, a missing file is fine. */
    method Discard(removes: bool) returns (ok: bool)
      modifies this`closed, disk`parts
      ensures closed && ok == (removes || key !in old(disk.parts))
      ensures disk.parts == if removes then old(disk.parts) - {key} else old(disk.parts)
    {
      closed := true;
      if removes {
        disk.parts := disk.parts - {key};
      }
      ok := key !in disk.parts;
    }
  }

  /** Copies a file through the shared buffer, in reads of any size. */
  method StreamFile(src: seq<Byte>) returns (dst: seq<Byte>)
    ensures dst == src
  {
    dst := [];
    var at := 0;
    while at < |src|
      invariant at <= |src| && dst == src[..at]
    {
      assert at + 1 <= |src| && 1 <= BUFFER_SIZE;
      var n: nat :| 1 <= n <= BUFFER_SIZE && at + n <= |src|;
      dst := dst + src[at..at + n];
      at := at + n;
    }
  }

  /** The copy loop by its running totals. */
  ghost function CopyFrom(log: seq<Byte>, file: seq<Byte>, written: nat, body: seq<Byte>, left: nat, turns: seq<Turn>)
    : (seq<Byte>, seq<Byte>, nat, bool)
    decreases |turns|
  {
    if |turns| == 0 || turns[0].Cancel? then (log, file, written, false)
    else
      var t := turns[0];
      var n := Available(body, left, t.want);
      if n > 0 && !t.writes then (log + body[..n], file + body[..n][..Min(t.landed, n)], written, false)
      else if EndOf(body, left, t) == Finish then (log + body[..n], file + body[..n], written + n, true)
      else if EndOf(body, left, t) == Break then (log + body[..n], file + body[..n], written + n, false)
      else CopyFrom(log + body[..n], file + body[..n], written + n, body[n..], left - n, turns[1..])
  }

  lemma {:induction false} TotalsAreCopy(log: seq<Byte>, file: seq<Byte>, written: nat, body: seq<Byte>, left: nat,
                                         turns: seq<Turn>)
    ensures var o := CopySpec(body, left, turns);
            CopyFrom(log, file, written, body, left, turns)
            == (log + o.hashed, file + o.filed, written + o.written, o.ok)
    decreases |turns|
  {
    if GoesOn(body, left, turns) {
      var n := Available(body, left, turns[0].want);
      TotalsAreCopy(log + body[..n], file + body[..n], written + n, body[n..], left - n, turns[1..]);
      var o := CopySpec(body[n..], left - n, turns[1..]);
      assert log + body[..n] + o.hashed == log + (body[..n] + o.hashed);
      assert file + body[..n] + o.filed == file + (body[..n] + o.filed);
    } else {
      assert log + [] == log && file + [] == file;
    }
  }

  lemma CopyFromUnfolds(log: seq<Byte>, file: seq<Byte>, written: nat, body: seq<Byte>, left: nat, turns: seq<Turn>)
    requires |turns| > 0 && turns[0].Read?
    ensures var t := turns[0]; var n := Available(body, left, t.want); var end := EndOf(body, left, t);
            CopyFrom(log, file, written, body, left, turns)
            == if n > 0 && !t.writes then (log + body[..n], file + body[..n][..Min(t.landed, n)], written, false)
               else if end == Finish then (log + body[..n], file + body[..n], written + n, true)
               else if end == Break then (log + body[..n], file + body[..n], written + n, false)
               else CopyFrom(log + body[..n], file + body[..n], written + n, body[n..], left - n, turns[1..])
  {
  }

  lemma CopyFromEnds(log: seq<Byte>, file: seq<Byte>, written: nat, body: seq<Byte>, left: nat, turns: seq<Turn>)
    requires |turns| == 0 || turns[0].Cancel?
    ensures CopyFrom(log, file, written, body, left, turns) == (log, file, written, false)
  {
  }

  /** One pass of the copy loop: a read is hashed before it is written. */
  method CopyOnce(dst: StagedFile, src: Body, hasher: Hasher, t: Turn) returns (n: nat, landed: bool, end: End)
    requires dst.Present() && t.Read?
    modifies dst.disk`parts, src, hasher
    ensures n == Available(old(src.bytes), old(src.left), t.want) && end == EndOf(old(src.bytes), old(src.left), t)
    ensures src.bytes == old(src.bytes)[n..] && src.left == old(src.left) - n
    ensures hasher.log == old(hasher.log) + old(src.bytes)[..n]
    ensures landed == (n == 0 || t.writes)
    ensures dst.disk.parts == old(dst.disk.parts)[dst.key := old(dst.File()).(bytes := old(dst.File()).bytes +
              if landed then old(src.bytes)[..n] else old(src.bytes)[..n][..Min(t.landed, n)])]
  {
    hide EndOf;
    var chunk;
    chunk, end := src.Read(t);
    n, landed := |chunk|, true;
    if chunk != [] {
      hasher.Write(chunk);
      landed := dst.Write(chunk, t);
    } else {
      assert hasher.log + chunk == hasher.log && dst.File().bytes + chunk == dst.File().bytes;
    }
  }

  /** The copy loop. */
  method Copy(dst: StagedFile, src: Body, hasher: Hasher, turns: seq<Turn>) returns (written: nat, ok: bool)
    requires dst.Present()
    modifies dst.disk`parts, src, hasher
    ensures var o := CopySpec(old(src.bytes), old(src.left), turns);
            && written == o.written && ok == o.ok
            && hasher.log == old(hasher.log) + o.hashed
            && dst.disk.parts == old(dst.disk.parts)[dst.key :=
                 old(dst.File()).(bytes := old(dst.File()).bytes + o.filed)]
  {
    TotalsAreCopy(hasher.log, dst.File().bytes, 0, src.bytes, src.left, turns);
    hide CopySpec, CopyFrom, EndOf, Available;
    written := 0;
    ghost var all := CopyFrom(hasher.log, dst.File().bytes, 0, src.bytes, src.left, turns);
    for i := 0 to |turns|
      invariant dst.Present()
      invariant dst.disk.parts == old(dst.disk.parts)[dst.key := old(dst.File()).(bytes := dst.File().bytes)]
      invariant all == CopyFrom(hasher.log, dst.File().bytes, written, src.bytes, src.left, turns[i..])
    {
      if turns[i].Cancel? {
        CopyFromEnds(hasher.log, dst.File().bytes, written, src.bytes, src.left, turns[i..]);
        return written, false;
      }
      assert turns[i..][1..] == turns[i + 1..];
      CopyFromUnfolds(hasher.log, dst.File().bytes, written, src.bytes, src.left, turns[i..]);
      var n, landed, end := CopyOnce(dst, src, hasher, turns[i]);
      if !landed {
        return written, false;
      }
      written := written + n;
      if end == Finish {
        return written, true;
      }
      if end == Break {
        return written, false;
      }
    }
    CopyFromEnds(hasher.log, dst.File().bytes, written, src.bytes, src.left, turns[|turns|..]);
    ok := false;
  }

  /** Rebuilds a hash over the first `n` bytes of a file, in reads of any size. */
  method Rehash(h: Hasher, bytes: seq<Byte>, n: nat)
    requires n <= |bytes|
    modifies h
    ensures h.log == old(h.log) + bytes[..n]
  {
    var read := 0;
    assert h.log + bytes[..0] == h.log;
    while read < n
      invariant read <= n && h.log == old(h.log) + bytes[..read]
    {
      assert read + 1 <= n && 1 <= BUFFER_SIZE;
      var got: nat :| 1 <= got <= BUFFER_SIZE && read + got <= n;
      assert bytes[..read] + bytes[read..read + got] == bytes[..read + got];
      assert old(h.log) + bytes[..read] + bytes[read..read + got] == old(h.log) + bytes[..read + got];
      h.Write(bytes[read..read + got]);
      read := read + got;
    }
  }

  class Sink {
    const staged: StagedFile
    const hasher: Hasher
    var committed: nat
    var closed: bool

    constructor (staged: StagedFile, hasher: Hasher, committed: nat)
      ensures this.staged == staged && this.hasher == hasher
      ensures this.committed == committed && !closed
    {
      this.staged, this.hasher, this.committed, closed := staged, hasher, committed, false;
    }

    ghost function View(): SinkView
      reads this, hasher
    {
      SinkView(hasher.log, committed, closed)
    }

    /** An open sink has an open file. */
    ghost predicate Valid()
      reads this, staged, staged.disk
    {
      !closed ==> !staged.closed && staged.Present()
    }

    method Append(c: Chunk, limit: nat) returns (offset: nat, result: AppendResult)
      requires Valid()
      modifies this`committed, hasher, staged.disk`parts
      ensures closed ==> offset == 0 && result == ErrClosed && View() == old(View())
                         && staged.disk.parts == old(staged.disk.parts)
      ensures !closed ==>
                var out := AppendSpec(old(staged.File()), old(View()), c, limit);
                && offset == out.committed && result == out.result && View() == out.sink
                && staged.disk.parts == old(staged.disk.parts)[staged.key := out.part]
      ensures Valid()
    {
      if closed {
        return 0, ErrClosed;
      }
      if c.offset != committed {
        return committed, ErrMismatch;
      }
      if c.offset > limit {
        return committed, ErrBeyond;
      }
      var body := new Body(c.body, ReaderLimit(limit - c.offset));
      var written, ok := Copy(staged, body, hasher, c.turns);
      if written > 0 {
        staged.Sync(c.syncs);
        if !c.syncs {
          return committed, ErrSync;
        }
        committed := committed + written;
      }
      return committed, if ok then Appended else ErrCopy;
    }

    method Commit(expected: Option<Digest>, finalPath: string, env: Placing) returns (result: Option<CommitResult>)
      requires Valid()
      modifies this`closed, staged, staged.disk
      ensures closed && View().log == old(View()).log
      ensures old(closed) ==> result == None && staged.disk.parts == old(staged.disk.parts)
                              && staged.disk.placed == old(staged.disk.placed)
      ensures !old(closed) ==>
                var out := CommitSpec(old(staged.File()), Digest(old(hasher.log)), expected, env);
                && result == Some(out.result)
                && staged.disk.parts == (if out.part.Some? then old(staged.disk.parts)[staged.key := out.part.value]
                                         else old(staged.disk.parts) - {staged.key})
                && staged.disk.placed == (if out.placed.Some?
                                          then old(staged.disk.placed)[finalPath := out.placed.value]
                                          else old(staged.disk.placed))
    {
      if closed {
        return None;
      }
      closed := true;
      staged.finalPath := finalPath;
      var digest := hasher.Sum();
      var outcome := staged.Commit(digest, expected, env);
      return Some(outcome);
    }

    method Close()
      modifies this`closed, staged`closed
      ensures closed && View().log == old(View()).log
    {
      if !closed {
        closed := true;
        var _ := staged.Close(true);
      }
    }

    method Discard(removes: bool) returns (ok: bool)
      modifies this`closed, staged`closed, staged.disk`parts
      ensures closed && ok == (old(closed) || removes || staged.key !in old(staged.disk.parts))
      ensures staged.disk.parts == if old(closed) || !removes then old(staged.disk.parts)
                                   else old(staged.disk.parts) - {staged.key}
    {
      ok := true;
      if !closed {
        closed := true;
        ok := staged.Discard(removes);
      }
    }
  }

  /** The sinks a process holds, by item. */
  class Sinks {
    const disk: Disk
    var byKey: map<string, Sink>

    constructor (disk: Disk)
      ensures Valid() && this.disk == disk && byKey == map[]
    {
      this.disk, byKey := disk, map[];
    }

    /** Held sinks are open, each on its own file with its own hash. */
    ghost predicate Valid()
      reads this, byKey.Values, set k <- byKey.Keys :: byKey[k].staged, disk
    {
      && (forall k <- byKey :: byKey[k].staged.disk == disk && byKey[k].staged.key == k
                               && !byKey[k].closed && byKey[k].Valid())
      && (forall k <- byKey, l <- byKey | k != l :: byKey[k].hasher != byKey[l].hasher)
    }

    ghost function Held(key: string): Option<SinkView>
      reads this, if key in byKey then {byKey[key], byKey[key].hasher} else {}
    {
      if key in byKey then Some(byKey[key].View()) else None
    }

    ghost function Staged(key: string): Option<Part>
      reads this, disk
    {
      if key in disk.parts then Some(disk.parts[key]) else None
    }

    /** Everything about the other items is as it was. */
    twostate predicate OthersKept(key: string)
      reads this, byKey.Values, set k <- byKey.Keys :: byKey[k].hasher, disk
    {
      forall k | k != key :: Held(k) == old(Held(k)) && Staged(k) == old(Staged(k))
    }

    /** The sink of an item, opened on first use and brought level with the store. */
    method Open(key: string, committed: nat, env: Opening) returns (result: OpenResult, sink: Option<Sink>)
      requires Valid()
      modifies this`byKey, disk`parts
      ensures Valid() && OthersKept(key) && disk.placed == old(disk.placed)
      ensures var out := OpenSpec(old(Staged(key)), old(Held(key)), committed, env);
              && result == out.result && Held(key) == out.sink
              && Staged(key) == out.part
      ensures result == Opened ==> key in byKey && sink == Some(byKey[key])
      ensures key in old(byKey) ==> byKey == old(byKey)
      ensures result == Opened && key !in old(byKey) ==>
                fresh({byKey[key], byKey[key].hasher, byKey[key].staged})
    {
      if key in byKey {
        return Opened, Some(byKey[key]);
      }
      hide OpenSpec;
      var done, file, hasher := OpenApart(key, committed, env);
      if done != Opened {
        return done, None;
      }
      var held := Hold(key, file.value, hasher.value, committed);
      return Opened, Some(held);
    }

    /** Keeps a new sink over an open file and the hash of what is in it. */
    method Hold(key: string, file: StagedFile, hasher: Hasher, committed: nat) returns (sink: Sink)
      requires Valid() && key !in byKey
      requires file.disk == disk && file.key == key && !file.closed && key in disk.parts
      requires forall k <- byKey :: byKey[k].hasher != hasher
      modifies this`byKey
      ensures Valid() && byKey == old(byKey)[key := sink] && fresh(sink) && sink.staged == file
      ensures sink.View() == SinkView(hasher.log, committed, false) && sink.hasher == hasher
      ensures OthersKept(key)
    {
      sink := new Sink(file, hasher, committed);
      byKey := byKey[key := sink];
    }

    /** Opens the file of an item that has no sink; the held ones are as they were. */
    method OpenApart(key: string, committed: nat, env: Opening)
      returns (result: OpenResult, file: Option<StagedFile>, hasher: Option<Hasher>)
      requires Valid() && key !in byKey
      modifies disk`parts
      ensures Valid() && OthersKept(key)
      ensures var out := OpenSpec(old(Staged(key)), None, committed, env);
              && result == out.result && Staged(key) == out.part
              && (result == Opened ==> hasher.Some? && out.sink == Some(SinkView(hasher.value.log, committed, false)))
      ensures result == Opened ==> file.Some? && fresh(file.value) && fresh(hasher.value)
      ensures result == Opened ==> file.value.disk == disk && file.value.key == key && !file.value.closed
    {
      hide OpenSpec;
      result, file, hasher := OpenFile(key, committed, env);
      assert forall k <- byKey :: Staged(k) == old(Staged(k));
    }

    /** Opens the staging file, cuts it back to what was acknowledged and hashes that. */
    method OpenFile(key: string, committed: nat, env: Opening)
      returns (result: OpenResult, file: Option<StagedFile>, hasher: Option<Hasher>)
      modifies disk`parts
      ensures var out := OpenSpec(old(Staged(key)), None, committed, env);
              && result == out.result && Staged(key) == out.part
              && (result == Opened ==> hasher.Some? && out.sink == Some(SinkView(hasher.value.log, committed, false)))
      ensures result == Opened ==> file.Some? && fresh(file.value) && fresh(hasher.value)
      ensures result == Opened ==> file.value.disk == disk && file.value.key == key && !file.value.closed
      ensures forall k | k != key :: Staged(k) == old(Staged(k))
    {
      if !env.opens {
        return ErrOpen, None, None;
      }
      var staged := new StagedFile(disk, key);
      if key !in disk.parts {
        disk.parts := disk.parts[key := Part([], 0)];
      }
      var onDisk := |disk.parts[key].bytes|;
      if onDisk < committed {
        return ErrCommittedLoss, None, None;
      }
      if onDisk > committed {
        var ok := staged.Truncate(committed, env.truncates, env.seeks);
        if !ok {
          return ErrOpen, None, None;
        }
      }
      var h := new Hasher();
      if committed > 0 {
        if !env.rehashes {
          return ErrOpen, None, None;
        }
        Rehash(h, disk.parts[key].bytes, committed);
      }
      assert h.log == disk.parts[key].bytes[..committed];
      return Opened, Some(staged), Some(h);
    }

    /** Forgets a sink; the others stay held and open. */
    method TakeOut(key: string) returns (sink: Sink)
      requires Valid() && key in byKey
      modifies this`byKey
      ensures Valid() && byKey == old(byKey) - {key} && sink == old(byKey[key])
      ensures sink.Valid() && !sink.closed && sink.staged.disk == disk && sink.staged.key == key
      ensures OthersKept(key)
      ensures Apart(sink)
    {
      sink := byKey[key];
      byKey := byKey - {key};
    }

    /** The sink shares neither file nor hash with the held ones. */
    ghost predicate Apart(sink: Sink)
      reads this, byKey.Values
    {
      forall k <- byKey :: byKey[k] != sink && byKey[k].staged != sink.staged && byKey[k].hasher != sink.hasher
                           && k != sink.staged.key
    }

    /** An append to one held sink, as seen from the whole set. */
    method Append(key: string, c: Chunk, limit: nat) returns (offset: nat, result: AppendResult)
      requires Valid() && key in byKey
      modifies byKey[key], byKey[key].hasher, disk`parts
      ensures Valid() && OthersKept(key)
      ensures old(Staged(key)).Some? && old(Held(key)).Some?
      ensures var out := AppendSpec(old(Staged(key)).value, old(Held(key)).value, c, limit);
              && offset == out.committed && result == out.result
              && Held(key) == Some(out.sink) && Staged(key) == Some(out.part)
    {
      hide AppendSpec;
      offset, result := byKey[key].Append(c, limit);
    }

    /** Verifies and places what a sink received that is no longer held. */
    method CommitTaken(key: string, sink: Sink, expected: Option<Digest>, finalPath: string, env: Placing)
      returns (result: CommitResult)
      requires Valid() && key !in byKey && Apart(sink)
      requires sink.Valid() && !sink.closed && sink.staged.disk == disk && sink.staged.key == key
      modifies sink`closed, sink.staged, disk
      ensures Valid() && OthersKept(key) && Held(key) == None
      ensures var out := CommitSpec(old(sink.staged.File()), Digest(old(sink.hasher.log)), expected, env);
              && result == out.result && Staged(key) == out.part
              && disk.placed == (if out.placed.Some? then old(disk.placed)[finalPath := out.placed.value]
                                 else old(disk.placed))
    {
      hide CommitSpec;
      var outcome := sink.Commit(expected, finalPath, env);
      result := outcome.value;
    }

    /** Verifies and places what one held sink received, and forgets the sink. */
    method Commit(key: string, expected: Option<Digest>, finalPath: string, env: Placing) returns (result: CommitResult)
      requires Valid() && key in byKey
      modifies this`byKey, byKey[key], byKey[key].staged, disk
      ensures Valid() && OthersKept(key) && Held(key) == None
      ensures old(Staged(key)).Some? && old(Held(key)).Some?
      ensures var out := CommitSpec(old(Staged(key)).value, Digest(old(Held(key)).value.log), expected, env);
              && result == out.result && Staged(key) == out.part
              && disk.placed == (if out.placed.Some? then old(disk.placed)[finalPath := out.placed.value]
                                 else old(disk.placed))
    {
      hide CommitSpec;
      var sink := TakeOut(key);
      result := CommitTaken(key, sink, expected, finalPath, env);
    }

    method Release(key: string)
      requires Valid()
      modifies this`byKey, if key in byKey then {byKey[key], byKey[key].staged} else {}
      ensures Valid() && OthersKept(key) && byKey == old(byKey) - {key}
      ensures disk.parts == old(disk.parts)
    {
      if key in byKey {
        var sink := TakeOut(key);
        sink.Close();
      }
    }

    /** Deletes a staging file that no sink holds. */
    method DiscardStaged(key: string, removes: bool)
      requires Valid() && key !in byKey
      modifies disk`parts
      ensures Valid() && OthersKept(key) && Held(key) == None
      ensures disk.parts == if removes then old(disk.parts) - {key} else old(disk.parts)
    {
      if removes {
        disk.parts := disk.parts - {key};
      }
    }

    method Discard(key: string, removes: bool) returns (ok: bool)
      requires Valid()
      modifies this`byKey, disk`parts, if key in byKey then {byKey[key], byKey[key].staged} else {}
      ensures Valid() && OthersKept(key) && byKey == old(byKey) - {key}
      ensures ok == (key in old(byKey) ==> removes)
      ensures disk.parts == if key in old(byKey) && removes then old(disk.parts) - {key} else old(disk.parts)
    {
      ok := true;
      if key in byKey {
        var sink := byKey[key];
        byKey := byKey - {key};
        ok := sink.Discard(removes);
      }
    }
  }
}
