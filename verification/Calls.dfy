/**
What single calls of the transfer service come to: when an answer is in time, which
fault fails a transfer and which interrupts it, who is refused and why.
*/
module Calls {
  import opened Common
  import opened Records
  import opened Service
  import opened Lifecycle

  /** An answer counts for two minutes from the proposal. Before that it queues the
  transfer and changes nothing else; from then on it fails it as timed out. A transfer
  that is over says why, and an answer to any other changes nothing. */
  lemma AnsweredInTime(v: Service, id: Id, now: int)
    requires id in v.store.records
    ensures var t := v.store.records[id];
            var (w, r) := AcceptSpec(v, id, now);
            && (t.state.AwaitingAcceptance? && now - t.queuedAt < 120_000_000_000 ==>
                  r == Fine
                  && w == v.(store := v.store.(records := v.store.records[id := t.(state := Queued)])))
            && (t.state.AwaitingAcceptance? && now - t.queuedAt >= 120_000_000_000 ==>
                  r == TimedOut && EndedAs(w, id, WasFailed, AcceptanceTimeout, now))
            && (!t.state.AwaitingAcceptance? ==> w == v)
            && (t.state.Terminal() ==>
                  && (r == TimedOut <==> t.cause == AcceptanceTimeout) && (r == WasDeclined <==> t.cause == Declined)
                  && r in {TimedOut, WasDeclined, NotFound})
            && (!t.state.AwaitingAcceptance? && !t.state.Terminal() ==> r == Fine)
  {
    TransitionShape(v.store.records[id].state, Failed);
    if v.store.records[id].state.AwaitingAcceptance? { assert CanTransition(AwaitingAcceptance, Queued); }
    hide CanTransition;
  }

  /** A transfer that has just ended: its record and its history entry say so. */
  ghost predicate EndedAs(w: Service, id: Id, outcome: Outcome, cause: Cause, now: int) {
    && id in w.store.records && id in w.store.history
    && var t := w.store.records[id]; var e := w.store.history[id];
       && t.state == (match outcome
                      case WasCompleted => Completed
                      case WasFailed => Failed
                      case WasCancelled => Cancelled)
       && t.endedAt == Some(now) && t.cause == cause
       && e.outcome == outcome && e.cause == cause && e.endedAt == now
       && e.peer == (if t.direction.Incoming? then t.source else t.target)
       && e.total == t.total && e.itemCount == |t.items| && e.direction == t.direction
       && w.store.active != Some(id)
       && (t.direction.Relayed? ==> id !in w.relayDirs)
  }

  /** A call on one transfer leaves the records of the others, and their history, alone. */
  ghost predicate OthersKept(v: Service, w: Service, id: Id) {
    && id in w.store.records && w.store.records == v.store.records[id := w.store.records[id]]
    && w.used == v.used && w.relayDirs - {id} == v.relayDirs - {id}
    && w.store.history - {id} == v.store.history - {id}
  }

  /** What every ending does once the record says that it is over. */
  lemma SettledMeans(v: Service, id: Id, now: int)
    requires id in v.store.records && v.store.records[id].state.Terminal() && v.store.records[id].endedAt == Some(now)
    ensures var w := Settle(v, id, now); var t := v.store.records[id];
            && EndedAs(w, id, OutcomeFor(t.state).value, t.cause, now) && OthersKept(v, w, id)
            && w.store.records == v.store.records && w.store.entries == v.store.entries
            && w.store.active == (if v.store.active == Some(id) then None else v.store.active)
  {
    assert v.store.records[id := v.store.records[id]] == v.store.records;
  }

  lemma FailedMeans(v: Service, id: Id, cause: Cause, now: int)
    requires id in v.store.records && !v.store.records[id].state.Terminal()
    ensures var w := FailSpec(v, id, cause, now);
            && EndedAs(w, id, WasFailed, cause, now) && OthersKept(v, w, id)
            && w.store.entries == v.store.entries
            && w.store.active == (if v.store.active == Some(id) then None else v.store.active)
            && w.store.records[id].items == v.store.records[id].items
  {
    hide CanTransition, Settle;
    CanEnd(v, id, Failed, cause, now);
    var u := v.(store := SetState(v.store, id, Failed, cause, now).0);
    SettledMeans(u, id, now);
    OthersTwice(v, u, Settle(u, id, now), id);
  }

  lemma InterruptedMeans(v: Service, id: Id, now: int)
    requires id in v.store.records && v.store.records[id].state.Busy() && v.store.active == Some(id)
    ensures InterruptSpec(v, id, now)
            == v.(store := Snapshot(v.store.records[id := v.store.records[id].(state := Interrupted)],
                                    v.store.entries + [id], None, v.store.history))
  {
    TransitionShape(v.store.records[id].state, Interrupted);
    hide CanTransition;
  }

  /** Starting takes the free slot, stamps the first start and leaves the waiting list. */
  lemma StartedMeans(v: Service, id: Id, now: int)
    requires Inv(v) && id in v.store.records
    requires v.store.records[id].state.Queued? || v.store.records[id].state.Interrupted?
    ensures var t := v.store.records[id];
            var (w, r) := StartIfWaiting(v, id, now);
            if v.store.active.Some? then r == QueueBusy && w == v
            else
              && r == Fine && w.store.active == Some(id) && OthersKept(v, w, id)
              && w.store.records[id] == t.(state := Running,
                                           startedAt := if t.startedAt.None? then Some(now) else t.startedAt)
              && id !in w.store.entries && w.store.entries == Without(v.store.entries, id)
              && w.store.history == v.store.history && w.relayDirs == v.relayDirs
  {
    hide Without, GoodRecord, RecordsOk, HistoryOk, RelayOk, UsedOk;
    WithoutKeeps(v.store.entries, id);
    hide QueueOk;
    TransitionShape(v.store.records[id].state, Running);
    hide CanTransition;
  }

  /** What a start answers from any state, also without the routes' check. */
  lemma StartAnswers(v: Service, id: Id, now: int)
    ensures var r := StartSpec(v, id, now).1;
            && (r == QueueBusy <==> v.store.active.Some? && v.store.active.value != id)
            && (r == Fine <==>
                  && r != QueueBusy && id in v.store.records
                  && v.store.records[id].state in {Queued, AwaitingAcceptance, Interrupted, Running})
            && r in {QueueBusy, Fine, Internal}
  {
    if id in v.store.records { TransitionShape(v.store.records[id].state, Running); }
    hide CanTransition, Without;
  }

  /** Which part of a chunk is recorded: what became durable, when it is news and fits. */
  function Recorded(item: FileItem, committed: nat): nat {
    if item.offset < committed <= item.size then committed else item.offset
  }

  lemma OthersTwice(u: Service, v: Service, w: Service, id: Id)
    requires OthersKept(u, v, id) && OthersKept(v, w, id)
    ensures OthersKept(u, w, id)
  {
    assert u.store.records[id := v.store.records[id]][id := w.store.records[id]]
           == u.store.records[id := w.store.records[id]];
  }

  lemma DirMeans(v: Service, id: Id, made: bool)
    requires id in v.store.records
    ensures OthersKept(v, MakeDir(v, id, made), id) && MakeDir(v, id, made).store == v.store
  {
    assert v.store.records[id := v.store.records[id]] == v.store.records;
  }

  lemma TakenMeans(v: Service, id: Id, index: nat, got: Reception, now: int)
    requires id in v.store.records && v.store.records[id].state.Busy() && v.store.active == Some(id)
    requires index < |v.store.records[id].items|
    ensures var t := v.store.records[id];
            var (w, r) := TakeChunk(v, id, index, t.items[index].offset, got, now);
            && OthersKept(v, w, id) && |w.store.records[id].items| == |t.items|
            && w.store.records[id].items[index].offset
               == (if got.opens then Recorded(t.items[index], got.committed) else t.items[index].offset)
            && (!got.opens ==> r == Internal && w.store == v.store)
            && (got.opens ==> TookChunk(w, r, id, got.fault, t.state, now))
  {
    hide FailSpec, InterruptSpec, ProgressSpec, OthersKept, EndedAs, MakeDir;
    var t := v.store.records[id];
    var v1 := MakeDir(v, id, got.dirMade);
    DirMeans(v, id, got.dirMade);
    var v2 := if got.committed > t.items[index].offset then ProgressSpec(v1, id, index, got.committed, now) else v1;
    ProgressMeans(v1, id, index, got.committed, now);
    OthersMeans(v, v1, id);
    SameIsKept(v1, id);
    OthersTwice(v, v1, v2, id);
    OthersMeans(v1, v2, id);
    match got.fault {
      case Full =>
        FailedMeans(v2, id, DestinationFull, now);
        OthersTwice(v, v2, FailSpec(v2, id, DestinationFull, now), id);
        OthersMeans(v, FailSpec(v2, id, DestinationFull, now), id);
      case Unwritable =>
        FailedMeans(v2, id, DestinationUnwritable, now);
        OthersTwice(v, v2, FailSpec(v2, id, DestinationUnwritable, now), id);
        OthersMeans(v, FailSpec(v2, id, DestinationUnwritable, now), id);
      case Broken =>
        InterruptedMeans(v2, id, now);
        InterruptKeepsOthers(v2, id, now);
        OthersTwice(v, v2, InterruptSpec(v2, id, now), id);
      case _ =>
    }
  }

  lemma OthersMeans(v: Service, w: Service, id: Id)
    requires OthersKept(v, w, id)
    ensures id in w.store.records
  {
  }

  lemma SameIsKept(v: Service, id: Id)
    requires id in v.store.records
    ensures OthersKept(v, v, id)
  {
    assert v.store.records[id := v.store.records[id]] == v.store.records;
  }

  lemma InterruptKeepsOthers(v: Service, id: Id, now: int)
    requires id in v.store.records && v.store.records[id].state.Busy() && v.store.active == Some(id)
    ensures OthersKept(v, InterruptSpec(v, id, now), id)
  {
    InterruptedMeans(v, id, now);
    hide InterruptSpec;
  }

  lemma ProgressMeans(v: Service, id: Id, index: nat, committed: nat, now: int)
    requires id in v.store.records && index < |v.store.records[id].items|
    ensures var t := v.store.records[id]; var w := ProgressSpec(v, id, index, committed, now);
            && OthersKept(v, w, id) && w.store.active == v.store.active && w.store.entries == v.store.entries
            && w.store.history == v.store.history && w.relayDirs == v.relayDirs
            && w.store.records[id].state == t.state && w.store.records[id].direction == t.direction
            && w.store.records[id].items
               == t.items[index := t.items[index].(offset := Recorded(t.items[index], committed))]
            && (t.items[index].offset <= committed <= t.items[index].size ==>
                  w.store.records[id].progressAt == Some(now))
  {
    var t := v.store.records[id];
    assert t.items[index := t.items[index]] == t.items;
    assert v.store.records[id := t] == v.store.records;
  }

  /** What the fault of a chunk does to its transfer: a destination that is full or cannot
  be written fails it, a connection that broke interrupts it and puts it at the back of
  the waiting list, and a wrong offset leaves it running. */
  ghost predicate TookChunk(w: Service, r: Reply, id: Id, fault: Fault, was: State, now: int)
    requires id in w.store.records
  {
    match fault
    case NoFault => r == Fine && w.store.records[id].state == was && w.store.active == Some(id)
    case WrongOffset => r == Reply.OffsetMismatch && w.store.records[id].state == was && w.store.active == Some(id)
    case Full => r == NoSpace && EndedAs(w, id, WasFailed, DestinationFull, now)
    case Unwritable => r == Internal && EndedAs(w, id, WasFailed, DestinationUnwritable, now)
    case Broken =>
      && r == Internal && w.store.records[id].state.Interrupted? && w.store.active == None
      && w.store.entries != [] && w.store.entries[|w.store.entries| - 1] == id
  }

  /** One chunk, from every state of the service: who is refused, and otherwise what is
  recorded and what its fault does. */
  lemma ReceivedMeans(v: Service, id: Id, index: int, got: Reception, now: int)
    requires Inv(v) && id in v.store.records
    ensures var t := v.store.records[id];
            var (w, r) := ReceiveSpec(v, id, index, got, now);
            if t.direction.Outgoing? || index < 0 || index >= |t.items| then r == Invalid && w == v
            else if t.state.Terminal() then r == NotFound && w == v
            else if t.state.AwaitingAcceptance? then r == Awaiting && w == v
            else if !t.state.Busy() && v.store.active.Some? then r == QueueBusy && w == v
            else
              && OthersKept(v, w, id) && |w.store.records[id].items| == |t.items|
              && w.store.records[id].items[index].offset
                 == (if got.opens then Recorded(t.items[index], got.committed) else t.items[index].offset)
              && var was := if t.state.Busy() then t.state else Running;
                 && (!got.opens ==> r == Internal && w.store.records[id].state == was)
                 && (got.opens ==> TookChunk(w, r, id, got.fault, was, now))
  {
    hide TakeChunk, StartIfWaiting, TookChunk, OthersKept, GoodRecord, QueueOk, RecordsOk, HistoryOk, RelayOk, UsedOk;
    var t := v.store.records[id];
    if !t.direction.Outgoing? && 0 <= index < |t.items| && !t.state.Terminal() && !t.state.AwaitingAcceptance? {
      if t.state.Busy() {
        NotWaiting(v, id, now);
        TakenMeans(v, id, index, got, now);
      } else {
        StartedMeans(v, id, now);
        if v.store.active.None? {
          var v1 := StartIfWaiting(v, id, now).0;
          OthersMeans(v, v1, id);
          TakenMeans(v1, id, index, got, now);
          OthersTwice(v, v1, TakeChunk(v1, id, index, t.items[index].offset, got, now).0, id);
        }
      }
    }
  }

  lemma NotWaiting(v: Service, id: Id, now: int)
    requires id in v.store.records && v.store.records[id].state.Busy()
    ensures StartIfWaiting(v, id, now) == (v, Fine)
  {
  }

  // ------------------------------------------------------------- the endings

  /** An item that is completed: the last one of a transfer that runs ends it as completed,
  any other only marks its item. */
  lemma CompletedMeans(v: Service, id: Id, index: nat, now: int)
    requires id in v.store.records && index < |v.store.records[id].items| && Validates(v.store.records[id])
    ensures var t := v.store.records[id];
            var (w, r) := CompleteSpec(v, id, index, now);
            && id in w.store.records && |w.store.records[id].items| == |t.items|
            && w.store.records[id].items == t.items[index := t.items[index].(state := Completed)]
            && (AllButOne(t.items, index) && t.state.Busy() ==> r == Fine && EndedAs(w, id, WasCompleted, t.cause, now))
            && (AllButOne(t.items, index) && !t.state.Busy() ==> r == Internal && w.store.records[id].state == t.state)
            && (!AllButOne(t.items, index) ==>
                  && r == Fine && w.store.records[id].state == t.state
                  && w.store.active == v.store.active && w.store.entries == v.store.entries)
  {
    hide CompleteSpec, SumSizes, Settle, EndedAs, OthersKept, Moved;
    var t := v.store.records[id];
    var done := Marked(t, index, Completed);
    StillValid(t, index, Completed);
    CompleteUnfolds(v, id, index, now);
    LastOpenItem(t.items, index);
    MovedToCompleted(done, now);
    hide Validates, AllCompleted, AllButOne;
    if AllButOne(t.items, index) && t.state.Busy() {
      var over := v.store.records[id := Moved(done, Completed, NoCause, now)];
      SettledMeans(v.(store := v.store.(records := over)), id, now);
      assert v.store.records[id := done][id := Moved(done, Completed, NoCause, now)] == over;
    }
  }

  lemma LastOpenItem(items: seq<FileItem>, index: nat)
    requires index < |items|
    ensures AllCompleted(items[index := items[index].(state := Completed)]) <==> AllButOne(items, index)
  {
    var done := items[index := items[index].(state := Completed)];
    assert forall i | 0 <= i < |items| && i != index :: done[i] == items[i];
  }

  lemma MovedToCompleted(t: Transfer, now: int)
    ensures Moved(t, Completed, NoCause, now) == t.(state := Completed, endedAt := Some(now))
  {
  }

  predicate AllButOne(items: seq<FileItem>, index: nat) {
    forall i | 0 <= i < |items| && i != index :: items[i].state.Completed?
  }

  /** Cancelling ends what is live and touches nothing that is over. */
  lemma CancelledMeans(v: Service, id: Id, now: int)
    requires id in v.store.records
    ensures var t := v.store.records[id];
            var (w, r) := CancelSpec(v, id, now);
            && r == Fine
            && (t.state.Terminal() ==> w == v)
            && (!t.state.Terminal() ==>
                  && EndedAs(w, id, WasCancelled, t.cause, now) && OthersKept(v, w, id)
                  && w.store.records[id].items == t.items && w.store.entries == Without(v.store.entries, id))
  {
    hide CanTransition, Without, Settle, EndedAs, OthersKept;
    if !v.store.records[id].state.Terminal() {
      CanEnd(v, id, Cancelled, NoCause, now);
      var u := v.(store := Dequeue(SetState(v.store, id, Cancelled, NoCause, now).0, id));
      MovedKeeps(v, u, id);
      SettledMeans(u, id, now);
      OthersTwice(v, u, Settle(u, id, now), id);
    }
  }

  lemma MovedKeeps(v: Service, w: Service, id: Id)
    requires id in w.store.records && w.store.records == v.store.records[id := w.store.records[id]]
    requires w.used == v.used && w.relayDirs == v.relayDirs && w.store.history == v.store.history
    ensures OthersKept(v, w, id)
  {
  }

  lemma DeclinedMeans(v: Service, id: Id, now: int)
    requires id in v.store.records
    ensures var (w, r) := DeclineSpec(v, id, now);
            && r == Fine
            && (v.store.records[id].state.Terminal() ==> w == v)
            && (!v.store.records[id].state.Terminal() ==> EndedAs(w, id, WasFailed, Declined, now))
  {
    if !v.store.records[id].state.Terminal() { FailedMeans(v, id, Declined, now); }
    hide FailSpec;
  }

  /** What verification does with an item: a digest that differs, no place found and a
  failed placement each fail the transfer with a cause of its own; a relayed item waits
  for its target, and any other is completed. */
  lemma CommittedMeans(v: Service, id: Id, index: int, got: Placement, now: int)
    requires id in v.store.records && Validates(v.store.records[id])
    ensures var t := v.store.records[id];
            var (w, r) := CommitItemSpec(v, id, index, got, now);
            if t.direction.Outgoing? || index < 0 || index >= |t.items| then r == Invalid && w == v
            else if t.items[index].state.Completed? then r == Fine && w == v
            else if t.state.Terminal() then r == NotFound && w == v
            else if t.items[index].offset != t.items[index].size then r == Reply.NotWhole && w == v
            else if !got.opens then r == Internal && w.store == v.store && w.staged == v.staged
            else if !t.direction.Relayed? && !got.resolves then
              r == BadPath && EndedAs(w, id, WasFailed, SourceUnreadable, now) && w.staged == v.staged
            else if got.verdict.BadDigest? then
              r == Mismatched && EndedAs(w, id, WasFailed, ChecksumMismatch, now) && w.staged == v.staged
            else if got.verdict.BadPlace? then
              r == Internal && EndedAs(w, id, WasFailed, DestinationFull, now) && w.staged == v.staged
            else
              && w.staged == v.staged + {(id, index as nat)} && id in w.store.records
              && w.store.records[id].items
                 == t.items[index := t.items[index].(state := if t.direction.Relayed? then Verifying else Completed)]
              && (t.direction.Relayed? ==> r == Fine && w.store.records[id].state == t.state
                                           && w.store.active == v.store.active)
  {
    hide FailSpec, CompleteSpec, EndedAs, Validates;
    var t := v.store.records[id];
    if !t.state.Terminal() && 0 <= index < |t.items| {
      var v1 := MakeDir(v, id, got.dirMade);
      FailedMeans(v1, id, SourceUnreadable, now);
      FailedMeans(v1, id, ChecksumMismatch, now);
      FailedMeans(v1, id, DestinationFull, now);
      CompletedMeans(Verified(v1, id, index), id, index, now);
      StillValid(t, index, Verifying);
      FailTouchesNoMemory(v1, id, SourceUnreadable, now);
      FailTouchesNoMemory(v1, id, ChecksumMismatch, now);
      FailTouchesNoMemory(v1, id, DestinationFull, now);
      CompleteTouchesNoMemory(Verified(v1, id, index), id, index, now);
    }
    hide OthersKept;
  }

  lemma StillValid(t: Transfer, index: nat, state: State)
    requires Validates(t) && index < |t.items|
    ensures Validates(t.(items := t.items[index := t.items[index].(state := state)]))
  {
    SumsAfterUpdate(t.items, index, t.items[index].(state := state));
  }

  lemma FailTouchesNoMemory(v: Service, id: Id, cause: Cause, now: int)
    ensures var w := FailSpec(v, id, cause, now);
            w.staged == v.staged && w.collected == v.collected && w.streamed == v.streamed
  {
    hide SetState, RecordHistory, Deactivate;
  }

  lemma CompleteTouchesNoMemory(v: Service, id: Id, index: int, now: int)
    ensures var w := CompleteSpec(v, id, index, now).0;
            w.staged == v.staged && w.collected == v.collected && w.streamed == v.streamed
  {
    hide SetState, RecordHistory, Deactivate, Put;
  }

  // ----------------------------------------------------------- the downloads

  /** A download through the pipe records how far it got; a broken one interrupts what
  ran, and one that reaches the end completes the item. */
  lemma PipedMeans(v: Service, id: Id, index: nat, got: Download, now: int)
    requires id in v.store.records && index < |v.store.records[id].items| && Validates(v.store.records[id])
    requires !v.store.records[id].direction.Relayed? && got.offset <= v.store.records[id].items[index].size
    ensures var t := v.store.records[id]; var till := got.offset + got.written;
            var (w, r) := DeliverSpec(v, id, index, got, now);
            && id in w.store.records && |w.store.records[id].items| == |t.items|
            && w.store.records[id].items[index].offset == Recorded(t.items[index], till)
            && (got.broken ==> r == Fine && w.store.records[id].items[index].state == t.items[index].state)
            && (got.broken && t.state.Busy() && v.store.active == Some(id) ==>
                  w.store.records[id].state.Interrupted? && w.store.active == None)
            && (!got.broken && till < t.items[index].size ==>
                  r == Fine && w.store.records[id].state == t.state
                  && w.store.records[id].items[index].state == t.items[index].state)
            && (!got.broken && till >= t.items[index].size ==>
                  w.store.records[id].items[index].state.Completed? && (id, index) in w.collected)
  {
    hide ProgressSpec, CompleteSpec, InterruptSpec, Validates;
    var t := v.store.records[id];
    var v1 := ProgressSpec(v, id, index, got.offset + got.written, now);
    ProgressMeans(v, id, index, got.offset + got.written, now);
    ProgressStaysValid(v, id, index, got.offset + got.written, now);
    if got.broken {
      InterruptTouches(v1, id, now);
      if t.state.Busy() && v.store.active == Some(id) { InterruptedMeans(v1, id, now); }
    } else if got.offset + got.written >= t.items[index].size {
      CompletedMeans(Collected(v1, id, index), id, index, now);
      CompleteTouchesNoMemory(Collected(v1, id, index), id, index, now);
    }
    hide OthersKept, EndedAs;
  }

  lemma ProgressStaysValid(v: Service, id: Id, index: nat, committed: nat, now: int)
    requires id in v.store.records && index < |v.store.records[id].items| && Validates(v.store.records[id])
    ensures id in ProgressSpec(v, id, index, committed, now).store.records
            && Validates(ProgressSpec(v, id, index, committed, now).store.records[id])
  {
    var t := v.store.records[id];
    SumsAfterUpdate(t.items, index, t.items[index].(offset := committed));
    hide SumSizes;
  }

  lemma InterruptTouches(v: Service, id: Id, now: int)
    requires id in v.store.records
    ensures var w := InterruptSpec(v, id, now);
            && id in w.store.records && w.store.records[id].items == v.store.records[id].items
            && w.staged == v.staged && w.collected == v.collected && w.streamed == v.streamed
  {
    hide CanTransition;
  }

  /** A relayed item is handed out once it is verified: before that its target is told to
  wait and nothing changes. */
  lemma CollectedMeans(v: Service, id: Id, index: nat, got: Download, now: int)
    requires id in v.store.records && index < |v.store.records[id].items| && Validates(v.store.records[id])
    requires v.store.records[id].direction.Relayed? && got.offset <= v.store.records[id].items[index].size
    requires got.device == v.store.records[id].target
    ensures var t := v.store.records[id];
            var (w, r) := DeliverSpec(v, id, index, got, now);
            var state := t.items[index].state;
            if !state.Verifying? && !state.Completed? then r == AwaitingRelay && w == v
            else
              && Stretch(id, index, got.offset, Min(got.offset + got.written, t.items[index].size), t.target)
                 in w.streamed
              && id in w.store.records
              && (got.broken || got.offset + got.written < t.items[index].size ==>
                    r == Fine && w.store.records[id].items == t.items && w.collected == v.collected)
              && (!got.broken && got.offset + got.written < t.items[index].size ==> w.store == v.store)
              && (got.broken && t.state.Busy() && v.store.active == Some(id) ==>
                    w.store.records[id].state.Interrupted? && w.store.active == None)
              && (!got.broken && got.offset + got.written >= t.items[index].size ==>
                    (id, index) in w.collected && |w.store.records[id].items| == |t.items|
                    && w.store.records[id].items[index].state.Completed?)
  {
    hide CompleteSpec, InterruptSpec, Validates;
    var t := v.store.records[id];
    var v1 := Streamed(v, id, index, got, t.items[index].size);
    if got.broken {
      InterruptTouches(v1, id, now);
      if t.state.Busy() && v.store.active == Some(id) { InterruptedMeans(v1, id, now); }
    } else if got.offset + got.written >= t.items[index].size {
      CompletedMeans(Collected(v1, id, index), id, index, now);
      CompleteTouchesNoMemory(Collected(v1, id, index), id, index, now);
    }
    hide EndedAs;
  }

  // ------------------------------------------------------------ the deadline

  /** A transfer is abandoned when it is live and its proposal, its first start and its
  last progress all lie seven days back. */
  lemma AbandonedWhen(t: Transfer, now: int)
    ensures Abandonable(t, now) <==>
              && !t.state.Terminal()
              && now - t.queuedAt >= 604_800_000_000_000
              && (t.startedAt.Some? ==> now - t.startedAt.value >= 604_800_000_000_000)
              && (t.progressAt.Some? ==> now - t.progressAt.value >= 604_800_000_000_000)
  {
  }

  lemma OverdueWhen(t: Transfer, now: int)
    ensures Overdue(t, now) <==> t.state.AwaitingAcceptance? && now - t.queuedAt >= 120_000_000_000
  {
  }

  /** A transfer that nobody knows is refused by every call, and nothing changes. */
  lemma UnknownIsRefused(v: Service, id: Id, index: int, now: int, chunk: Reception, place: Placement, got: Download)
    requires id !in v.store.records
    ensures AcceptSpec(v, id, now) == (v, NotFound) && DeclineSpec(v, id, now) == (v, NotFound)
    ensures CancelSpec(v, id, now) == (v, NotFound) && CompleteSpec(v, id, index, now) == (v, NotFound)
    ensures ReceiveSpec(v, id, index, chunk, now) == (v, NotFound)
    ensures CommitItemSpec(v, id, index, place, now) == (v, NotFound)
    ensures DeliverSpec(v, id, index, got, now) == (v, NotFound)
    ensures v.store.active != Some(id) ==> FailSpec(v, id, Abandoned, now) == v && InterruptSpec(v, id, now) == v
  {
  }

  /** Nor is an item that is not there, or a record that could not be stored. */
  lemma UnfitIsRefused(v: Service, id: Id, index: int, now: int, got: Download)
    requires id in v.store.records
    ensures index < 0 || index >= |v.store.records[id].items| ==>
              CompleteSpec(v, id, index, now) == (v, Invalid) && DeliverSpec(v, id, index, got, now) == (v, Invalid)
    ensures 0 <= index < |v.store.records[id].items| && got.offset > v.store.records[id].items[index].size ==>
              DeliverSpec(v, id, index, got, now) == (v, Invalid)
    ensures 0 <= index < |v.store.records[id].items| && v.store.records[id].source == "" ==>
              CompleteSpec(v, id, index, now) == (v, Internal)
  {
  }

  /** Looking after acceptances fails exactly the visited transfers that have waited two
  minutes or more for one, and leaves every other record as it is. */
  lemma {:induction false} ExpiredMeans(v: Service, ids: seq<Id>, now: int)
    ensures var w := ExpireSpec(v, ids, now);
            && w.store.records.Keys == v.store.records.Keys
            && forall id <- v.store.records ::
                 var t := v.store.records[id];
                 if id in ids && t.state.AwaitingAcceptance? && now - t.queuedAt >= 120_000_000_000
                 then w.store.records[id] == t.(state := Failed, cause := AcceptanceTimeout, endedAt := Some(now))
                 else w.store.records[id] == t
    decreases |ids|
  {
    hide FailSpec;
    if ids != [] {
      var late := ids[0] in v.store.records && Overdue(v.store.records[ids[0]], now);
      var next := if late then FailSpec(v, ids[0], AcceptanceTimeout, now) else v;
      if late {
        FailedRecord(v, ids[0], AcceptanceTimeout, now);
      }
      ExpiredMeans(next, ids[1..], now);
      assert forall id :: id in ids <==> id == ids[0] || id in ids[1..];
    }
  }

  lemma FailedRecord(v: Service, id: Id, cause: Cause, now: int)
    requires id in v.store.records && !v.store.records[id].state.Terminal()
    ensures FailSpec(v, id, cause, now).store.records
            == v.store.records[id := v.store.records[id].(state := Failed, cause := cause, endedAt := Some(now))]
  {
    CanEnd(v, id, Failed, cause, now);
    hide CanTransition;
  }

  /** What can be stored: a record with items, between two different named devices, whose
  total is the sum of its sizes modulo 2^64. */
  lemma StoredExactlyWhen(s: Snapshot, id: Id, t: Transfer)
    ensures var (w, r) := Put(s, id, t);
            && (r == Ok <==> t.items != [] && t.source != "" && t.target != "" && t.source != t.target
                             && (t.total - SumSizes(t.items)) % 0x1_0000_0000_0000_0000 == 0 && t.total < U64)
            && (r == Ok ==> w == s.(records := s.records[id := t])) && (r != Ok ==> r == ErrInvalid && w == s)
  {
    hide SumSizes;
  }

  /** What the store answers to a change of state or of an offset. */
  lemma StoreAnswers(s: Snapshot, id: Id, to: State, cause: Cause, index: int, committed: nat, now: int)
    ensures var (w, r) := SetState(s, id, to, cause, now);
            && (r == ErrNotFound <==> id !in s.records)
            && (r == ErrIllegal <==> id in s.records && s.records[id].state != to
                                     && !CanTransition(s.records[id].state, to))
            && (r == Ok || r == ErrNotFound || r == ErrIllegal) && (r != Ok ==> w == s)
    ensures var (w, r) := Records.Advance(s, id, index, committed, now);
            if id !in s.records then r == ErrNotFound && w == s
            else if index < 0 || index >= |s.records[id].items| then r == ErrRange && w == s
            else if committed < s.records[id].items[index].offset then r == ErrBackwards && w == s
            else if committed > s.records[id].items[index].size then r == ErrBeyond && w == s
            else r == Ok && w.records.Keys == s.records.Keys && w.records[id].progressAt == Some(now)
    ensures Activate(s, id).1 == (if s.active.Some? && s.active.value != id then ErrBusy else Ok)
  {
    hide CanTransition, Without;
  }

  // ----------------------------------------------------------- the proposals

  /** A list of files is taken exactly when each has a name, each has a place if they are
  for this machine, and their sizes add up to less than 2^64. */
  lemma {:induction false} CheckedWhen(items: seq<DeclaredItem>, total: nat, incoming: bool)
    requires total < U64
    ensures CheckItems(items, total, incoming).1 == Fine
            <==> (forall d <- items :: d.named && (incoming ==> d.placeable)) && total + DeclaredSum(items) < U64
    decreases |items|
  {
    if items != [] {
      assert items == [items[0]] + items[1..];
      if items[0].named && total + items[0].size < U64 && (incoming ==> items[0].placeable) {
        CheckedWhen(items[1..], total + items[0].size, incoming);
      }
    }
  }

  /** What the first file that is refused is refused for. */
  lemma {:induction false} RefusedFor(items: seq<DeclaredItem>, i: nat, total: nat, incoming: bool)
    requires i < |items| && total + DeclaredSum(items[..i]) < U64
    requires forall d <- items[..i] :: d.named && (incoming ==> d.placeable)
    ensures var r := CheckItems(items, total, incoming).1; var item := items[i];
            && (!item.named ==> r == Invalid)
            && (item.named && total + DeclaredSum(items[..i]) + item.size >= U64 ==> r == NoSpace)
            && (item.named && total + DeclaredSum(items[..i]) + item.size < U64 && incoming && !item.placeable ==>
                  r == BadPath)
    decreases i
  {
    if i > 0 {
      assert items[..i][0] == items[0] && items[..i][1..] == items[1..][..i - 1];
      assert items[0] in items[..i];
      assert forall d <- items[1..][..i - 1] :: d in items[..i];
      RefusedFor(items[1..], i - 1, total + items[0].size, incoming);
    }
  }

  lemma {:induction false} NewItemsHaveSizes(items: seq<DeclaredItem>)
    ensures |NewItems(items)| == |items|
    ensures forall i | 0 <= i < |items| :: NewItems(items)[i] == FileItem(items[i].size, 0, Queued)
  {
    if items != [] { NewItemsHaveSizes(items[1..]); }
  }

  /** Which way a transfer goes: to this machine, from it, or past it. */
  lemma DirectionMeans(self: string, d: Declaration)
    requires self != "" && d.source != d.target
    ensures (DirectionOf(self, d).Incoming? <==> d.target == self)
            && (DirectionOf(self, d).Outgoing? <==> d.source == self)
            && (DirectionOf(self, d).Relayed? <==> d.source != self && d.target != self)
  {
  }

  /** When a proposal is refused, with nothing changed, and otherwise the whole record of
  what was proposed: nothing received yet, at the back of the waiting list, and waiting
  for an answer exactly when it is written here and its sender must ask. */
  lemma DeclaredMeans(v: Service, self: string, id: Id, d: Declaration, now: int)
    ensures var (w, r) := DeclareSpec(v, self, id, d, now); var way := DirectionOf(self, d);
            && (r == Fine <==>
                  && d.items != [] && d.source != "" && d.target != "" && d.target != d.source
                  && !d.downgrades && d.fits
                  && (forall item <- d.items :: item.named && (way.Incoming? ==> item.placeable))
                  && DeclaredSum(d.items) < U64
                  && (!way.Outgoing? ==> !d.sender.Refuse?) && (way.Relayed? ==> d.targetPaired))
            && (r != Fine ==> w == v)
            && (r == Fine ==>
                  && id in w.store.records && w.store.records == v.store.records[id := w.store.records[id]]
                  && Proposed(w.store.records[id], d, way, now)
                  && w.store.active == v.store.active && w.store.history == v.store.history && w.used == v.used + {id}
                  && w.store.entries == if id in v.store.entries then v.store.entries else v.store.entries + [id])
  {
    hide CheckItems, NewItems, SumSizes, DeclaredSum;
    CheckedWhen(d.items, 0, DirectionOf(self, d).Incoming?);
    CheckedTotal(d.items, 0, DirectionOf(self, d).Incoming?);
    NewItemsAreFresh(d.items);
    NewItemsHaveSizes(d.items);
  }

  ghost predicate Proposed(t: Transfer, d: Declaration, way: Direction, now: int) {
    && t.direction == way && t.source == d.source && t.target == d.target && t.total == DeclaredSum(d.items)
    && t.transferred == 0 && t.cause == NoCause && t.queuedAt == now
    && t.startedAt == None && t.endedAt == None && t.progressAt == None
    && |t.items| == |d.items|
    && (forall i | 0 <= i < |t.items| :: t.items[i] == FileItem(d.items[i].size, 0, Queued))
    && (t.state.AwaitingAcceptance? <==> !way.Outgoing? && d.sender.Ask?)
    && (t.state.AwaitingAcceptance? || t.state.Queued?)
  }

  /** The reasons to refuse a proposal, in the order in which they are looked at. */
  lemma DeclinedFor(v: Service, self: string, id: Id, d: Declaration, now: int)
    ensures var r := DeclareSpec(v, self, id, d, now).1; var way := DirectionOf(self, d);
            var listed := CheckItems(d.items, 0, way.Incoming?).1;
            && (d.items == [] || d.target == "" || d.target == d.source ==> r == Invalid)
            && (d.items != [] && d.target != "" && d.target != d.source ==>
                  && (d.downgrades ==> r == Downgrade)
                  && (!d.downgrades && listed != Fine ==> r == listed)
                  && (!d.downgrades && listed == Fine && !d.fits ==> r == NoSpace)
                  && (!d.downgrades && listed == Fine && d.fits && !way.Outgoing? && d.sender.Refuse? ==>
                        r == Unauthorized)
                  && (!d.downgrades && listed == Fine && d.fits && way.Relayed? && !d.targetPaired ==>
                        r == Unauthorized)
                  && ((!d.downgrades && listed == Fine && d.fits && (!way.Outgoing? ==> !d.sender.Refuse?)
                       && (way.Relayed? ==> d.targetPaired) && d.source == "") ==> r == Internal))
  {
    hide CheckItems, NewItems, SumSizes;
  }
}
