/**
One incoming item on a running computer: the calls that receive and finish it, over
the sinks and the record of the store.
*/
module Incoming {
  import opened Common
  import opened Staging
  import opened Upload
  import opened Sinks

  class Computer {
    const disk: Disk
    const key: string
    const finalPath: string
    const size: nat
    var sinks: Sinks
    var stored: nat
    var completed: bool
    var ended: bool

    constructor (disk: Disk, key: string, finalPath: string, size: nat)
      requires key !in disk.parts && finalPath !in disk.placed
      ensures Valid() && fresh(sinks) && this.disk == disk && this.key == key && this.finalPath == finalPath
      ensures View() == NewItem(size)
    {
      this.disk, this.key, this.finalPath, this.size := disk, key, finalPath, size;
      sinks := new Sinks(disk);
      stored, completed, ended := 0, false, false;
    }

    ghost predicate Valid()
      reads this, sinks, sinks.byKey.Values, set k <- sinks.byKey.Keys :: sinks.byKey[k].staged, disk
    {
      sinks.disk == disk && sinks.Valid()
    }

    ghost function View(): Item
      reads this, sinks, disk, sinks.disk
      reads if key in sinks.byKey then {sinks.byKey[key], sinks.byKey[key].hasher} else {}
    {
      Item(size, sinks.Staged(key), sinks.Held(key), stored,
           if finalPath in disk.placed then Some(disk.placed[finalPath]) else None, completed, ended)
    }

    /** Serves one chunk: append, record the offset, answer. */
    method Receive(c: Chunk, env: Opening) returns (reply: Reply)
      requires Valid()
      modifies this`stored, sinks`byKey, disk`parts
      modifies if key in sinks.byKey then {sinks.byKey[key], sinks.byKey[key].hasher} else {}
      ensures Valid()
      ensures (View(), reply) == ReceiveItem(old(View()), c, env)
    {
      hide AppendSpec, OpenSpec;
      if ended {
        return Refused;
      }
      var done, _ := sinks.Open(key, stored, env);
      if done != Opened {
        return Refused;
      }
      reply := TakeChunk(c);
    }

    /** Appends to the open sink and records what it acknowledged. */
    method TakeChunk(c: Chunk) returns (reply: Reply)
      requires Valid() && key in sinks.byKey
      modifies this`stored, sinks.byKey[key], sinks.byKey[key].hasher, disk`parts
      ensures Valid() && old(View()).part.Some? && old(View()).sink.Some?
      ensures var a := AppendSpec(old(View()).part.value, old(View()).sink.value, c, size);
              var next := old(View()).(part := Some(a.part), sink := Some(a.sink));
              View() == Advance(next, a.committed) && reply == ReplyFor(Job(a.committed, a.result))
    {
      hide AppendSpec;
      var committed, result := sinks.Append(key, c, size);
      if stored <= committed <= size {
        stored := committed;
      }
      match result
      case Appended => reply := Accepted(committed);
      case ErrMismatch => reply := Corrected(committed);
      case _ => reply := Refused;
    }

    /** Verifies the whole item against the sender's digest and moves it into place;
    an item that cannot be placed ends its transfer and loses its partial data if it can be removed. */
    method CommitItem(expected: Option<Digest>, env: Opening, placing: Placing) returns (result: FinishResult)
      requires Valid()
      modifies this`completed, this`ended, sinks`byKey, disk
      modifies if key in sinks.byKey then {sinks.byKey[key], sinks.byKey[key].staged} else {}
      ensures Valid()
      ensures (View(), result) == FinishItem(old(View()), expected, env, placing)
    {
      hide OpenSpec, PlaceItem;
      if completed {
        return Finished;
      }
      if ended {
        return NotThere;
      }
      if stored != size {
        return NotWhole;
      }
      var done, _ := sinks.Open(key, stored, env);
      if done != Opened {
        return NotOpened;
      }
      result := Place(expected, placing);
    }

    method Place(expected: Option<Digest>, placing: Placing) returns (result: FinishResult)
      requires Valid() && key in sinks.byKey
      modifies this`completed, this`ended, sinks`byKey, disk
      modifies sinks.byKey[key], sinks.byKey[key].staged
      ensures Valid() && old(View()).part.Some? && old(View()).sink.Some?
      ensures (View(), result) == PlaceItem(old(View()), expected, placing)
    {
      hide CommitSpec;
      if !placing.resolves {
        Abandon(placing.cleans);
        return NotPlaced;
      }
      var outcome := sinks.Commit(key, expected, finalPath, placing);
      result := Conclude(outcome, placing.cleans);
    }

    /** Ends the transfer of an item that has no destination. */
    method Abandon(cleans: bool)
      requires Valid() && key in sinks.byKey
      modifies this`ended, sinks`byKey, disk`parts
      modifies sinks.byKey[key], sinks.byKey[key].staged
      ensures Valid()
      ensures View() == old(View()).(sink := None, part := Left(old(View()).part, cleans), ended := true)
    {
      var _ := sinks.Discard(key, cleans);
      sinks.DiscardStaged(key, cleans);
      ended := true;
    }

    /** Marks the item, or ends its transfer and deletes what is left of its file, if it can. */
    method Conclude(outcome: CommitResult, cleans: bool) returns (result: FinishResult)
      requires Valid() && key !in sinks.byKey
      modifies this`completed, this`ended, disk`parts
      ensures Valid()
      ensures if outcome == Committed then View() == old(View()).(completed := true) && result == Finished
              else View() == old(View()).(part := Left(old(View()).part, cleans), ended := true)
                   && result == if outcome == ErrChecksum then Mismatched else NotPlaced
    {
      if outcome == Committed {
        completed := true;
        return Finished;
      }
      ended := true;
      sinks.DiscardStaged(key, cleans);
      return if outcome == ErrChecksum then Mismatched else NotPlaced;
    }
  }
}
