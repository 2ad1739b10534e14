/** The transfer service as it runs: calls that update a store object in place. */
module Transfers {
  import opened Common
  import opened Records
  import opened Service

  class Transfers {
    const store: Store
    const self: string
    var relayDirs: set<Id>
    ghost var used: set<Id>
    ghost var staged: set<(Id, nat)>
    ghost var collected: set<(Id, nat)>
    ghost var streamed: set<Stretch>

    constructor (self: string)
      ensures fresh(store) && this.self == self
      ensures View() == Service(Snapshot(map[], [], None, map[]), {}, {}, {}, {}, {})
    {
      store := new Store();
      this.self := self;
      relayDirs, used, staged, collected, streamed := {}, {}, {}, {}, {};
    }

    ghost function View(): Service
      reads this, store
    {
      Service(store.View(), relayDirs, used, staged, collected, streamed)
    }

    /** Checks a proposal item by item, keeping the running total below 64 bits. */
    method CheckDeclared(items: seq<DeclaredItem>, incoming: bool) returns (total: nat, r: Reply, made: seq<FileItem>)
      ensures (total, r) == CheckItems(items, 0, incoming)
      ensures r == Fine ==> made == NewItems(items)
    {
      total, made := 0, [];
      for i := 0 to |items|
        invariant CheckItems(items, 0, incoming) == CheckItems(items[i..], total, incoming)
        invariant made + NewItems(items[i..]) == NewItems(items)
      {
        var item := items[i];
        assert items[i..][1..] == items[i + 1..];
        if !item.named {
          return total, Invalid, [];
        }
        if total > U64 - 1 - item.size {
          return total, NoSpace, [];
        }
        if incoming && !item.placeable {
          return total, BadPath, [];
        }
        total := total + item.size;
        assert made + ([FileItem(item.size, 0, Queued)] + NewItems(items[i + 1..]))
               == (made + [FileItem(item.size, 0, Queued)]) + NewItems(items[i + 1..]);
        made := made + [FileItem(item.size, 0, Queued)];
      }
      assert made + [] == made;
      r := Fine;
    }

    method Declare(id: Id, d: Declaration, now: int) returns (r: Reply)
      modifies this`used, store
      ensures (View(), r) == DeclareSpec(old(View()), self, id, d, now)
    {
      hide CheckItems, NewItems, Validates;
      if |d.items| == 0 || d.target == "" || d.target == d.source {
        return Invalid;
      }
      if d.downgrades {
        return Downgrade;
      }
      var direction := DirectionOf(self, d);
      var total, checked, items := CheckDeclared(d.items, direction.Incoming?);
      if checked != Fine {
        return checked;
      }
      if !d.fits {
        return NoSpace;
      }
      var state := Queued;
      if !direction.Outgoing? {
        if d.sender.Refuse? {
          return Unauthorized;
        }
        if d.sender.Ask? {
          state := AwaitingAcceptance;
        }
      }
      if direction.Relayed? && !d.targetPaired {
        return Unauthorized;
      }
      var put := store.PutTransfer(id, Transfer(direction, d.source, d.target, items, total, 0, state, NoCause, now,
                                                None, None, None));
      if put != Ok {
        return Internal;
      }
      store.EnqueueTransfer(id);
      used := used + {id};
      return Fine;
    }

    method Start(id: Id, now: int) returns (r: Reply)
      modifies store
      ensures (View(), r) == StartSpec(old(View()), id, now)
    {
      hide SetState, Without;
      var busy := store.ActivateTransfer(id);
      if busy != Ok {
        return QueueBusy;
      }
      var moved := store.SetTransferState(id, Running, NoCause, now);
      return if moved == Ok then Fine else Internal;
    }

    method Progress(id: Id, index: int, committed: nat, now: int) returns (r: Result)
      modifies store
      ensures View() == ProgressSpec(old(View()), id, index, committed, now)
    {
      hide Advance;
      r := store.AdvanceItem(id, index, committed, now);
    }

    method Interrupt(id: Id, now: int)
      modifies store
      ensures View() == InterruptSpec(old(View()), id, now)
    {
      hide SetState;
      var _ := store.SetTransferState(id, Interrupted, NoCause, now);
      store.DeactivateTransfer(id, true);
    }

    method DiscardRelay(id: Id)
      modifies this`relayDirs
      ensures View() == DropDir(old(View()), id)
    {
      if id in store.records && store.records[id].direction.Relayed? {
        relayDirs := relayDirs - {id};
      }
    }

    method Fail(id: Id, cause: Cause, now: int)
      modifies this`relayDirs, store
      ensures View() == FailSpec(old(View()), id, cause, now)
    {
      hide SetState, EntryFor;
      var _ := store.SetTransferState(id, Failed, cause, now);
      store.DeactivateTransfer(id, false);
      DiscardRelay(id);
      store.Remember(id, now);
    }

    method Complete(id: Id, index: int, now: int) returns (r: Reply)
      modifies this`relayDirs, store
      ensures (View(), r) == CompleteSpec(old(View()), id, index, now)
    {
      hide SetState, EntryFor, Validates;
      if id !in store.records {
        return NotFound;
      }
      var t := store.records[id];
      if index < 0 || index >= |t.items| {
        return Invalid;
      }
      t := t.(items := t.items[index := t.items[index].(state := Completed)]);
      var put := store.PutTransfer(id, t);
      if put != Ok {
        return Internal;
      }
      for i := 0 to |t.items|
        invariant forall j | 0 <= j < i :: t.items[j].state.Completed?
        invariant store.View() == Put(old(store.View()), id, t).0 && relayDirs == old(relayDirs)
      {
        if t.items[i].state != Completed {
          return Fine;
        }
      }
      var verifying := store.SetTransferState(id, Verifying, NoCause, now);
      if verifying != Ok {
        SetStateFailsClean(Put(old(store.View()), id, t).0, id, Verifying, now);
        return Internal;
      }
      ghost var s1 := store.View();
      var completed := store.SetTransferState(id, Completed, NoCause, now);
      if completed != Ok {
        SetStateFailsClean(s1, id, Completed, now);
        return Internal;
      }
      store.DeactivateTransfer(id, false);
      DiscardRelay(id);
      store.Remember(id, now);
      return Fine;
    }

    lemma SetStateFailsClean(s: Snapshot, id: Id, to: State, now: int)
      ensures SetState(s, id, to, NoCause, now).1 != Ok ==> SetState(s, id, to, NoCause, now).0 == s
    {
      hide CanTransition;
    }

    method Cancel(id: Id, now: int) returns (r: Reply)
      modifies this`relayDirs, store
      ensures (View(), r) == CancelSpec(old(View()), id, now)
    {
      hide EntryFor, Without, CanTransition;
      if id !in store.records {
        return NotFound;
      }
      if store.records[id].state.Terminal() {
        return Fine;
      }
      DiscardRelay(id);
      var cancelled := store.SetTransferState(id, Cancelled, NoCause, now);
      if cancelled != Ok {
        return Internal;
      }
      store.DeactivateTransfer(id, false);
      store.DequeueTransfer(id);
      store.Remember(id, now);
      return Fine;
    }

    method Accept(id: Id, now: int) returns (r: Reply)
      modifies this`relayDirs, store
      ensures (View(), r) == AcceptSpec(old(View()), id, now)
    {
      hide SetState, FailSpec;
      if id !in store.records {
        return NotFound;
      }
      var t := store.records[id];
      if t.state.Terminal() {
        match t.cause {
          case AcceptanceTimeout => return TimedOut;
          case Declined => return WasDeclined;
          case _ => return NotFound;
        }
      }
      if t.state != AwaitingAcceptance {
        return Fine;
      }
      if AcceptanceExpired(t, now) {
        Fail(id, AcceptanceTimeout, now);
        return TimedOut;
      }
      var moved := store.SetTransferState(id, Queued, NoCause, now);
      return if moved == Ok then Fine else Internal;
    }

    method Decline(id: Id, now: int) returns (r: Reply)
      modifies this`relayDirs, store
      ensures (View(), r) == DeclineSpec(old(View()), id, now)
    {
      hide FailSpec;
      if id !in store.records {
        return NotFound;
      }
      if !store.records[id].state.Terminal() {
        Fail(id, Declined, now);
      }
      r := Fine;
    }

    /** What the content routes do before they move bytes. */
    method StartIfQueued(id: Id, now: int) returns (r: Reply)
      modifies store
      ensures (View(), r) == StartIfWaiting(old(View()), id, now)
    {
      hide StartSpec;
      r := Fine;
      if id in store.records && (store.records[id].state.Queued? || store.records[id].state.Interrupted?) {
        r := Start(id, now);
      }
    }

    method Receive(id: Id, index: int, got: Reception, now: int) returns (r: Reply)
      modifies this`relayDirs, store
      ensures (View(), r) == ReceiveSpec(old(View()), id, index, got, now)
    {
      hide StartIfWaiting, TakeChunk;
      if id !in store.records {
        return NotFound;
      }
      var t := store.records[id];
      if t.direction.Outgoing? || index < 0 || index >= |t.items| {
        return Invalid;
      }
      if t.state.Terminal() {
        return NotFound;
      }
      if t.state == AwaitingAcceptance {
        return Awaiting;
      }
      r := StartIfQueued(id, now);
      if r == Fine {
        r := Take(id, index, t.items[index].offset, got, now);
      }
    }

    method PrepareDir(id: Id, made: bool)
      modifies this`relayDirs
      ensures View() == MakeDir(old(View()), id, made)
    {
      if made && id in store.records && store.records[id].direction.Relayed? {
        relayDirs := relayDirs + {id};
      }
    }

    method Take(id: Id, index: int, stored: nat, got: Reception, now: int) returns (r: Reply)
      modifies this`relayDirs, store
      ensures (View(), r) == TakeChunk(old(View()), id, index, stored, got, now)
    {
      hide ProgressSpec, FailSpec, InterruptSpec;
      PrepareDir(id, got.dirMade);
      if !got.opens {
        return Internal;
      }
      if got.committed > stored {
        var _ := Progress(id, index, got.committed, now);
      }
      match got.fault {
        case NoFault =>
          r := Fine;
        case WrongOffset =>
          r := OffsetMismatch;
        case Full =>
          Fail(id, DestinationFull, now);
          r := NoSpace;
        case Unwritable =>
          Fail(id, DestinationUnwritable, now);
          r := Internal;
        case Broken =>
          Interrupt(id, now);
          r := Internal;
      }
    }

    method CommitItem(id: Id, index: int, got: Placement, now: int) returns (r: Reply)
      modifies this`relayDirs, this`staged, store
      ensures (View(), r) == CommitItemSpec(old(View()), id, index, got, now)
    {
      hide FailSpec, CompleteSpec, Validates;
      if id !in store.records {
        return NotFound;
      }
      var t := store.records[id];
      if index < 0 || index >= |t.items| || t.direction.Outgoing? {
        return Invalid;
      }
      if t.items[index].state == Completed {
        return Fine;
      }
      if t.state.Terminal() {
        return NotFound;
      }
      if t.items[index].offset != t.items[index].size {
        return NotWhole;
      }
      PrepareDir(id, got.dirMade);
      if !got.opens {
        return Internal;
      }
      if !t.direction.Relayed? && !got.resolves {
        Fail(id, SourceUnreadable, now);
        return BadPath;
      }
      match got.verdict {
        case BadDigest =>
          Fail(id, ChecksumMismatch, now);
          r := Mismatched;
        case BadPlace =>
          Fail(id, DestinationFull, now);
          r := Internal;
        case Placed =>
          if t.direction.Relayed? {
            r := StageRelayed(id, index);
          } else {
            staged := staged + {(id, index)};
            r := Complete(id, index, now);
          }
      }
    }

    method StageRelayed(id: Id, index: nat) returns (r: Reply)
      requires id in store.records && index < |store.records[id].items|
      modifies this`staged, store
      ensures (View(), r) == StageSpec(old(View()), id, index)
    {
      hide Validates;
      var t := store.records[id];
      t := t.(items := t.items[index := t.items[index].(state := Verifying)]);
      var put := store.PutTransfer(id, t);
      if put != Ok {
        return Internal;
      }
      staged := staged + {(id, index)};
      return Fine;
    }

    /** The end of a download, of a relayed item or of a pipe. */
    method Deliver(id: Id, index: int, got: Download, now: int) returns (r: Reply)
      modifies this`relayDirs, this`collected, this`streamed, store
      ensures (View(), r) == DeliverSpec(old(View()), id, index, got, now)
    {
      hide InterruptSpec, CompleteSpec, ProgressSpec;
      if id !in store.records {
        return NotFound;
      }
      var t := store.records[id];
      if index < 0 || index >= |t.items| || got.offset > t.items[index].size {
        return Invalid;
      }
      if t.direction.Relayed? {
        if got.device != t.target {
          return NotFound;
        }
        if t.items[index].state != Verifying && t.items[index].state != Completed {
          return AwaitingRelay;
        }
        var till := Min(got.offset + got.written, t.items[index].size);
        streamed := streamed + {Stretch(id, index, got.offset, till, got.device)};
      } else {
        var _ := Progress(id, index, got.offset + got.written, now);
      }
      if got.broken {
        Interrupt(id, now);
        return Fine;
      }
      if got.offset + got.written < t.items[index].size {
        return Fine;
      }
      collected := collected + {(id, index)};
      r := Complete(id, index, now);
    }

    /** Repairs what a crash left running, over all the records. */
    method Recover(ids: seq<Id>, now: int)
      modifies store
      ensures View() == RecoverSpec(old(View()), ids, now)
    {
      hide InterruptSpec;
      for i := 0 to |ids|
        invariant RecoverSpec(View(), ids[i..], now) == RecoverSpec(old(View()), ids, now)
      {
        assert ids[i..][1..] == ids[i + 1..];
        if ids[i] in store.records && store.records[ids[i]].state.Busy() {
          Interrupt(ids[i], now);
        }
      }
    }

    method EraseHistory()
      modifies store
      ensures View() == ClearSpec(old(View()))
    {
      store.EraseHistory();
    }

    method ExpireAcceptances(ids: seq<Id>, now: int)
      modifies this`relayDirs, store
      ensures View() == ExpireSpec(old(View()), ids, now)
    {
      hide FailSpec;
      for i := 0 to |ids|
        invariant ExpireSpec(View(), ids[i..], now) == ExpireSpec(old(View()), ids, now)
      {
        assert ids[i..][1..] == ids[i + 1..];
        if ids[i] in store.records && Overdue(store.records[ids[i]], now) {
          Fail(ids[i], AcceptanceTimeout, now);
        }
      }
    }

    /** Ends what nobody touched for a week, then clears the relay directories that
    belong to nothing in flight. */
    method Sweep(ids: seq<Id>, now: int)
      modifies this`relayDirs, store
      ensures View() == SweepSpec(old(View()), ids, now)
    {
      hide SweepOne;
      for i := 0 to |ids|
        invariant SweepRecords(store.View(), ids[i..], now) == SweepRecords(old(store.View()), ids, now)
        invariant relayDirs == old(relayDirs)
      {
        assert ids[i..][1..] == ids[i + 1..];
        if ids[i] in store.records && Abandonable(store.records[ids[i]], now) {
          SweepTransfer(ids[i], now);
        }
      }
      var records := store.records;
      relayDirs := set id | id in relayDirs && id in records && !records[id].state.Terminal();
    }

    method SweepTransfer(id: Id, now: int)
      modifies store
      ensures store.View() == SweepOne(old(store.View()), id, now)
    {
      hide SetState, EntryFor, Without;
      var _ := store.SetTransferState(id, Failed, Abandoned, now);
      store.Remember(id, now);
      store.DequeueTransfer(id);
      store.DeactivateTransfer(id, false);
      store.DeleteTransfer(id);
    }
  }
}
