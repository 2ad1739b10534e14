/**
What every sequence of service calls keeps: one running transfer at most, no live
transfer lost, exact byte counts, endings that stay as they are, and no relayed bytes
kept beyond their transfer.
*/
module Lifecycle {
  import opened Common
  import opened Records
  import opened Service

  // ----------------------------------------------------------------- calls

  datatype Call =
    | Declare(id: Id, declaration: Declaration)
    | Accept(id: Id)
    | Decline(id: Id)
    | Expire(ids: seq<Id>)
    | Receive(id: Id, index: int, reception: Reception)
    | CommitItem(id: Id, index: int, placement: Placement)
    | BeginFetch(id: Id)
    | Deliver(id: Id, index: int, download: Download)
    | Progress(id: Id, index: int, committed: nat)
    | Interrupt(id: Id)
    | Fail(id: Id, cause: Cause)
    | Cancel(id: Id)
    | Reorder(order: seq<Id>)
    | Recover(ids: seq<Id>)
    | Sweep(ids: seq<Id>)
    | Clear

  datatype Timed = At(now: int, call: Call)

  /** A new transfer gets an identifier that was never used. */
  predicate Fresh(v: Service, id: Id) {
    id !in v.used
  }

  function Step(v: Service, self: string, e: Timed): Service {
    match e.call
    case Declare(id, d) => if Fresh(v, id) then DeclareSpec(v, self, id, d, e.now).0 else v
    case Accept(id) => AcceptSpec(v, id, e.now).0
    case Decline(id) => DeclineSpec(v, id, e.now).0
    case Expire(ids) => ExpireSpec(v, ids, e.now)
    case Receive(id, index, got) => ReceiveSpec(v, id, index, got, e.now).0
    case CommitItem(id, index, got) => CommitItemSpec(v, id, index, got, e.now).0
    case BeginFetch(id) => StartIfWaiting(v, id, e.now).0
    case Deliver(id, index, got) => DeliverSpec(v, id, index, got, e.now).0
    case Progress(id, index, committed) => ProgressSpec(v, id, index, committed, e.now)
    case Interrupt(id) => InterruptSpec(v, id, e.now)
    case Fail(id, cause) => FailSpec(v, id, cause, e.now)
    case Cancel(id) => CancelSpec(v, id, e.now).0
    case Reorder(order) => v.(store := Records.Reorder(v.store, order).0)
    case Recover(ids) => RecoverSpec(v, ids, e.now)
    case Sweep(ids) => SweepSpec(v, ids, e.now)
    case Clear => ClearSpec(v)
  }

  function Run(v: Service, self: string, es: seq<Timed>): Service
    decreases |es|
  {
    if es == [] then v else Run(Step(v, self, es[0]), self, es[1..])
  }

  const EMPTY: Service := Service(Snapshot(map[], [], None, map[]), {}, {}, {}, {}, {})

  // ------------------------------------------------------------- invariant

  /** The slot names the one transfer that is running or verifying. */
  ghost predicate SlotOk(s: Snapshot) {
    && (s.active.Some? ==> s.active.value in s.records && s.records[s.active.value].state.Busy())
    && (forall id <- s.records :: s.records[id].state.Busy() ==> s.active == Some(id))
  }

  /** The waiting list has no duplicates, leaves the active one out, and together with
  the slot covers everything that is not over. */
  ghost predicate QueueOk(s: Snapshot) {
    && (forall e <- s.entries :: multiset(s.entries)[e] == 1)
    && (s.active.Some? ==> s.active.value !in s.entries)
    && (forall id <- s.records :: !s.records[id].state.Terminal() ==> s.active == Some(id) || id in s.entries)
  }

  /** Counts add up and stay below 64 bits; endings carry their stamps. */
  ghost predicate GoodRecord(t: Transfer) {
    && Validates(t)
    && t.total == SumSizes(t.items) < U64
    && t.transferred == SumOffsets(t.items)
    && (forall i | 0 <= i < |t.items| :: t.items[i].offset <= t.items[i].size)
    && (t.endedAt.Some? <==> t.state.Terminal())
    && (t.state.Completed? ==> AllCompleted(t.items))
    && (!t.state.Failed? ==> t.cause == NoCause)
  }

  ghost predicate RecordsOk(s: Snapshot) {
    forall id <- s.records :: GoodRecord(s.records[id])
  }

  /** History holds no live record, and of a finished one only what it ended as. */
  ghost predicate HistoryOk(s: Snapshot) {
    forall id <- s.records :: id in s.history ==>
      s.records[id].state.Terminal() && Some(s.history[id]) == EntryFor(s.records[id], 0)
  }

  /** Everything that exists was given out once. */
  ghost predicate UsedOk(v: Service) {
    && v.store.records.Keys <= v.used && v.store.history.Keys <= v.used
    && (forall c <- v.collected :: c.0 in v.used)
  }

  /** Relay directories belong to transfers in flight, and finished items were verified
  or fetched. */
  ghost predicate RelayOk(v: Service) {
    && (forall id <- v.relayDirs :: id in v.store.records && LiveRelay(v.store.records[id]))
    && (forall id <- v.store.records :: StagedOk(id, v.store.records[id], v.staged, v.collected))
  }

  predicate LiveRelay(t: Transfer) {
    t.direction.Relayed? && !t.state.Terminal()
  }

  /** What a finished item went through: a relayed one was verified and then fetched by
  its target; an incoming one was verified, or somebody's download of it ran to its end. */
  ghost predicate StagedOk(id: Id, t: Transfer, staged: set<(Id, nat)>, collected: set<(Id, nat)>) {
    forall i | 0 <= i < |t.items| ::
      && (t.direction.Relayed? ==>
            && (t.items[i].state.Verifying? || t.items[i].state.Completed? ==> (id, i) in staged)
            && (t.items[i].state.Completed? ==> (id, i) in collected))
      && (t.direction.Incoming? && t.items[i].state.Completed? ==> (id, i) in staged || (id, i) in collected)
  }

  ghost predicate Inv(v: Service) {
    SlotOk(v.store) && QueueOk(v.store) && RecordsOk(v.store) && HistoryOk(v.store) && RelayOk(v) && UsedOk(v)
  }

  // ------------------------------------------------------- sums and filters

  lemma {:induction false} SumsAfterUpdate(items: seq<FileItem>, i: nat, item: FileItem)
    requires i < |items|
    ensures SumSizes(items[i := item]) == SumSizes(items) - items[i].size + item.size
    ensures SumOffsets(items[i := item]) == SumOffsets(items) - items[i].offset + item.offset
  {
    if i == 0 {
      assert items[0 := item][1..] == items[1..];
    } else {
      SumsAfterUpdate(items[1..], i - 1, item);
      assert items[i := item][1..] == items[1..][i - 1 := item];
    }
  }

  lemma {:induction false} OffsetsWithinSizes(items: seq<FileItem>)
    requires forall i | 0 <= i < |items| :: items[i].offset <= items[i].size
    ensures SumOffsets(items) <= SumSizes(items)
  {
    if items != [] {
      assert forall i | 0 <= i < |items[1..]| :: items[1..][i] == items[i + 1];
      OffsetsWithinSizes(items[1..]);
    }
  }

  lemma {:induction false} WithoutIs(entries: seq<Id>, id: Id)
    ensures multiset(Without(entries, id)) == multiset(entries)[id := 0]
  {
    if entries != [] {
      WithoutIs(entries[1..], id);
      assert entries == [entries[0]] + entries[1..];
    }
  }

  lemma WithoutKeeps(entries: seq<Id>, id: Id)
    requires forall e <- entries :: multiset(entries)[e] == 1
    ensures forall e <- Without(entries, id) :: multiset(Without(entries, id))[e] == 1
    ensures forall e :: e in Without(entries, id) <==> e in entries && e != id
  {
    WithoutIs(entries, id);
    assert forall e :: e in Without(entries, id) <==> e in multiset(Without(entries, id));
    assert forall e :: e in entries <==> e in multiset(entries);
  }

  // ------------------------------------------------------ elementary moves

  /** Changing a record in place, short of its state and what history shows. */
  ghost predicate SameStanding(t: Transfer, u: Transfer) {
    && t.state == u.state && t.cause == u.cause && t.endedAt == u.endedAt
    && t.direction == u.direction && t.source == u.source && t.target == u.target
    && |t.items| == |u.items| && t.total == u.total
  }

  lemma TouchedStoreKeeps(s: Snapshot, id: Id, t: Transfer)
    requires SlotOk(s) && QueueOk(s) && HistoryOk(s) && id in s.records && SameStanding(s.records[id], t)
    ensures var w := s.(records := s.records[id := t]);
            SlotOk(w) && QueueOk(w) && HistoryOk(w)
  {
  }

  lemma TouchKeeps(v: Service, id: Id, t: Transfer)
    requires Inv(v) && id in v.store.records
    requires SameStanding(v.store.records[id], t) && GoodRecord(t)
    requires StagedOk(id, t, v.staged, v.collected)
    ensures Inv(v.(store := v.store.(records := v.store.records[id := t])))
  {
    hide GoodRecord, StagedOk, SlotOk, QueueOk, HistoryOk;
    TouchedStoreKeeps(v.store, id, t);
  }

  lemma MovedIsGood(t: Transfer, to: State, cause: Cause, now: int)
    requires GoodRecord(t) && !t.state.Terminal()
    requires to.Completed? ==> AllCompleted(t.items)
    ensures GoodRecord(Moved(t, to, cause, now))
    ensures forall id, staged, col ::
              StagedOk(id, t, staged, col) ==> StagedOk(id, Moved(t, to, cause, now), staged, col)
  {
  }

  /** A live record that stays live: what does not depend on slot and list. */
  lemma LiveMoveKeeps(v: Service, id: Id, t: Transfer, s: Snapshot)
    requires RecordsOk(v.store) && HistoryOk(v.store) && RelayOk(v) && UsedOk(v)
    requires id in v.store.records && !v.store.records[id].state.Terminal() && !t.state.Terminal()
    requires GoodRecord(t) && t.direction == v.store.records[id].direction && StagedOk(id, t, v.staged, v.collected)
    requires s.records == v.store.records[id := t] && s.history == v.store.history
    ensures RecordsOk(s) && HistoryOk(s) && RelayOk(v.(store := s)) && UsedOk(v.(store := s))
  {
    hide GoodRecord, StagedOk, EntryFor;
  }

  lemma StartedQueueKeeps(s: Snapshot, id: Id, t: Transfer)
    requires SlotOk(s) && QueueOk(s) && s.active.None? && t.state.Running?
    ensures var w := Snapshot(s.records[id := t], Without(s.entries, id), Some(id), s.history);
            SlotOk(w) && QueueOk(w)
  {
    hide Without;
    WithoutKeeps(s.entries, id);
  }

  lemma StartKeeps(v: Service, id: Id, now: int)
    requires Inv(v) && id in v.store.records
    requires v.store.records[id].state.Queued? || v.store.records[id].state.Interrupted?
    ensures Inv(StartSpec(v, id, now).0)
    ensures StartSpec(v, id, now).1 == if v.store.active.Some? then QueueBusy else Fine
  {
    var s := v.store;
    assert s.active != Some(id);
    assert GoodRecord(s.records[id]) && StagedOk(id, s.records[id], v.staged, v.collected);
    hide Without, GoodRecord, EntryFor, StagedOk, QueueOk, SlotOk, HistoryOk, RecordsOk, RelayOk, UsedOk;
    var t := Moved(s.records[id], Running, NoCause, now);
    MovedIsGood(s.records[id], Running, NoCause, now);
    if s.active.None? {
      StartedQueueKeeps(s, id, t);
      LiveMoveKeeps(v, id, t, Snapshot(s.records[id := t], Without(s.entries, id), Some(id), s.history));
      TransitionShape(s.records[id].state, Running);
      StartUnfolds(v, id, now);
    }
  }

  lemma StartUnfolds(v: Service, id: Id, now: int)
    requires id in v.store.records && v.store.active.None? && CanTransition(v.store.records[id].state, Running)
    ensures var s := v.store;
            StartSpec(v, id, now)
            == (v.(store := Snapshot(s.records[id := Moved(s.records[id], Running, NoCause, now)],
                                     Without(s.entries, id), Some(id), s.history)), Fine)
  {
    hide Without;
  }

  lemma AppendedQueue(entries: seq<Id>, id: Id)
    requires id !in entries
    requires forall e <- entries :: multiset(entries)[e] == 1
    ensures forall e <- entries + [id] :: multiset(entries + [id])[e] == 1
    ensures forall e :: e in entries + [id] <==> e in entries || e == id
  {
  }

  lemma RequeueKeeps(s: Snapshot, id: Id, t: Transfer)
    requires QueueOk(s) && s.active == Some(id)
    ensures QueueOk(Snapshot(s.records[id := t], s.entries + [id], None, s.history))
  {
    AppendedQueue(s.entries, id);
  }

  lemma RequeueFreesSlot(s: Snapshot, id: Id, t: Transfer, entries: seq<Id>)
    requires SlotOk(s) && s.active == Some(id) && !t.state.Busy()
    ensures SlotOk(Snapshot(s.records[id := t], entries, None, s.history))
  {
  }

  lemma InterruptUnfolds(v: Service, id: Id, now: int)
    requires id in v.store.records && v.store.active == Some(id) && v.store.records[id].state.Busy()
    ensures var s := v.store;
            InterruptSpec(v, id, now)
            == v.(store := Snapshot(s.records[id := Moved(s.records[id], Interrupted, NoCause, now)],
                                    s.entries + [id], None, s.history))
  {
    TransitionShape(v.store.records[id].state, Interrupted);
    hide CanTransition;
  }

  lemma InterruptKeeps(v: Service, id: Id, now: int)
    requires Inv(v)
    ensures Inv(InterruptSpec(v, id, now))
  {
    var s := v.store;
    assert id in s.records && s.records[id].state.Busy() ==> s.active == Some(id);
    assert id in s.records ==> GoodRecord(s.records[id]) && StagedOk(id, s.records[id], v.staged, v.collected);
    hide GoodRecord, EntryFor, StagedOk, QueueOk, HistoryOk, RecordsOk, RelayOk, UsedOk, InterruptSpec;
    if id in s.records && s.records[id].state.Busy() {
      var t := Moved(s.records[id], Interrupted, NoCause, now);
      MovedIsGood(s.records[id], Interrupted, NoCause, now);
      RequeueKeeps(s, id, t);
      RequeueFreesSlot(s, id, t, s.entries + [id]);
      InterruptUnfolds(v, id, now);
      hide SlotOk;
      LiveMoveKeeps(v, id, t, InterruptSpec(v, id, now).store);
    } else {
      OnlyBusyIsInterrupted(v, id, now);
    }
  }

  lemma OnlyBusyIsInterrupted(v: Service, id: Id, now: int)
    requires SlotOk(v.store) && !(id in v.store.records && v.store.records[id].state.Busy())
    ensures InterruptSpec(v, id, now) == v
  {
    if id in v.store.records { TransitionShape(v.store.records[id].state, Interrupted); }
    hide CanTransition;
  }

  lemma EndedQueueKeeps(s: Snapshot, id: Id, t: Transfer, history: map<Id, HistoryEntry>)
    requires SlotOk(s) && QueueOk(s) && t.state.Terminal()
    ensures var w := Snapshot(s.records[id := t], s.entries, if s.active == Some(id) then None else s.active, history);
            SlotOk(w) && QueueOk(w)
  {
  }

  lemma EndedHistoryKeeps(s: Snapshot, id: Id, t: Transfer, entries: seq<Id>, active: Option<Id>)
    requires HistoryOk(s) && t.state.Terminal() && t.endedAt.Some?
    ensures EntryFor(t, 0).Some?
    ensures HistoryOk(Snapshot(s.records[id := t], entries, active, s.history[id := EntryFor(t, 0).value]))
  {
  }

  lemma SettleUnfolds(v: Service, id: Id, t: Transfer, now: int)
    requires t.state.Terminal() && t.endedAt.Some?
    ensures EntryFor(t, now) == EntryFor(t, 0) && EntryFor(t, 0).Some?
    ensures var s := v.store;
            Settle(v.(store := s.(records := s.records[id := t])), id, now)
            == Service(Snapshot(s.records[id := t], s.entries, if s.active == Some(id) then None else s.active,
                                s.history[id := EntryFor(t, 0).value]),
                       if t.direction.Relayed? then v.relayDirs - {id} else v.relayDirs,
                       v.used, v.staged, v.collected, v.streamed)
  {
  }

  lemma EndedRestKeeps(v: Service, id: Id, t: Transfer, w: Service)
    requires RecordsOk(v.store) && RelayOk(v) && UsedOk(v) && id in v.store.records
    requires GoodRecord(t) && StagedOk(id, t, v.staged, v.collected)
    requires w.store.records == v.store.records[id := t] && w.store.history.Keys == v.store.history.Keys + {id}
    requires w.relayDirs == if v.store.records[id].direction.Relayed? then v.relayDirs - {id} else v.relayDirs
    requires w.used == v.used && w.staged == v.staged && w.collected == v.collected
    ensures RecordsOk(w.store) && RelayOk(w) && UsedOk(w)
  {
    hide GoodRecord, StagedOk;
  }

  /** An ending: a live record becomes terminal and is settled. */
  lemma EndKeeps(v: Service, id: Id, t: Transfer, now: int)
    requires Inv(v) && id in v.store.records && !v.store.records[id].state.Terminal()
    requires GoodRecord(t) && t.state.Terminal() && t.direction == v.store.records[id].direction
    requires StagedOk(id, t, v.staged, v.collected)
    ensures Inv(Settle(v.(store := v.store.(records := v.store.records[id := t])), id, now))
  {
    assert t.endedAt.Some?;
    hide GoodRecord, StagedOk, EntryFor, QueueOk, SlotOk, HistoryOk, RecordsOk, RelayOk, UsedOk, Settle;
    var s := v.store;
    SettleUnfolds(v, id, t, now);
    EndedQueueKeeps(s, id, t, s.history[id := EntryFor(t, 0).value]);
    EndedHistoryKeeps(s, id, t, s.entries, if s.active == Some(id) then None else s.active);
    EndedRestKeeps(v, id, t, Settle(v.(store := s.(records := s.records[id := t])), id, now));
  }

  /** Settling again what is over writes its history entry once more and changes
  nothing else: nothing at all exactly when the entry is still there. */
  lemma SettleAgain(v: Service, id: Id, now: int)
    requires Inv(v) && (id in v.store.records ==> v.store.records[id].state.Terminal())
    ensures id !in v.store.records ==> Settle(v, id, now) == v
    ensures id in v.store.records ==>
              && EntryFor(v.store.records[id], 0).Some?
              && Settle(v, id, now)
                 == v.(store := v.store.(history := v.store.history[id := EntryFor(v.store.records[id], 0).value]))
    ensures Settle(v, id, now) == v <==> id !in v.store.records || id in v.store.history
  {
    if id in v.store.records {
      assert GoodRecord(v.store.records[id]);
    }
  }

  lemma RewrittenKeeps(v: Service, id: Id)
    requires Inv(v) && id in v.store.records && v.store.records[id].state.Terminal()
    requires EntryFor(v.store.records[id], 0).Some?
    ensures Inv(v.(store := v.store.(history := v.store.history[id := EntryFor(v.store.records[id], 0).value])))
  {
    hide GoodRecord, StagedOk, EntryFor;
  }

  // ------------------------------------------------------- calls keep it

  /** A live record can always be ended from outside. */
  lemma CanEnd(v: Service, id: Id, to: State, cause: Cause, now: int)
    requires id in v.store.records && !v.store.records[id].state.Terminal() && (to.Failed? || to.Cancelled?)
    ensures SetState(v.store, id, to, cause, now)
            == (v.store.(records := v.store.records[id := Moved(v.store.records[id], to, cause, now)]), Ok)
  {
    TransitionShape(v.store.records[id].state, to);
  }

  lemma FailKeeps(v: Service, id: Id, cause: Cause, now: int)
    requires Inv(v)
    ensures Inv(FailSpec(v, id, cause, now))
  {
    hide Settle, Moved, CanTransition;
    if id in v.store.records && !v.store.records[id].state.Terminal() {
      var t := Moved(v.store.records[id], Failed, cause, now);
      MovedIsGood(v.store.records[id], Failed, cause, now);
      CanEnd(v, id, Failed, cause, now);
      MovedStanding(v.store.records[id], Failed, cause, now);
      EndKeeps(v, id, t, now);
    } else {
      if id in v.store.records {
        TransitionShape(v.store.records[id].state, Failed);
      }
      SettleAgain(v, id, now);
      if id in v.store.records {
        RewrittenKeeps(v, id);
      }
    }
  }

  lemma MovedStanding(t: Transfer, to: State, cause: Cause, now: int)
    ensures Moved(t, to, cause, now).state == to && Moved(t, to, cause, now).direction == t.direction
  {
  }

  lemma ProgressedIsGood(t: Transfer, index: nat, committed: nat, now: int)
    requires GoodRecord(t) && index < |t.items| && t.items[index].offset <= committed <= t.items[index].size
    ensures var u := Progressed(t, index, committed, now);
            && GoodRecord(u) && SameStanding(t, u)
            && t.transferred + (committed - t.items[index].offset) < U64
            && forall id, staged, col :: StagedOk(id, t, staged, col) ==> StagedOk(id, u, staged, col)
  {
    var u := Progressed(t, index, committed, now);
    SumsAfterUpdate(t.items, index, t.items[index].(offset := committed));
    OffsetsWithinSizes(u.items);
  }

  lemma ProgressKeeps(v: Service, id: Id, index: int, committed: nat, now: int)
    requires Inv(v)
    ensures Inv(ProgressSpec(v, id, index, committed, now))
  {
    var (s, r) := Advance(v.store, id, index, committed, now);
    if r == Ok {
      ProgressedIsGood(v.store.records[id], index, committed, now);
      TouchKeeps(v, id, Progressed(v.store.records[id], index, committed, now));
    }
  }

  /** A record one of whose items changed its state. */
  function Marked(t: Transfer, index: nat, state: State): Transfer
    requires index < |t.items|
  {
    t.(items := t.items[index := t.items[index].(state := state)])
  }

  lemma MarkedIsGood(t: Transfer, index: nat, state: State)
    requires GoodRecord(t) && index < |t.items|
    requires t.state.Completed? ==> state.Completed?
    ensures GoodRecord(Marked(t, index, state)) && SameStanding(t, Marked(t, index, state))
  {
    SumsAfterUpdate(t.items, index, t.items[index].(state := state));
  }

  /** What completing an item takes: of a relayed transfer that it was verified and
  collected, of an incoming one that it was either. */
  predicate MayComplete(v: Service, id: Id, index: int) {
    id in v.store.records && 0 <= index < |v.store.records[id].items| ==>
      match v.store.records[id].direction
      case Relayed => (id, index) in v.staged && (id, index) in v.collected
      case Incoming => (id, index) in v.staged || (id, index) in v.collected
      case Outgoing => true
  }

  /** Completing an item keeps the invariant, when it may complete. */
  lemma CompleteKeeps(v: Service, id: Id, index: int, now: int)
    requires Inv(v) && MayComplete(v, id, index)
    ensures Inv(CompleteSpec(v, id, index, now).0)
  {
    hide SumSizes, SumOffsets;
    if id in v.store.records && 0 <= index < |v.store.records[id].items| {
      var t := v.store.records[id];
      var done := Marked(t, index, Completed);
      MarkedIsGood(t, index, Completed);
      var w := v.(store := v.store.(records := v.store.records[id := done]));
      MarkedIsStaged(v, id, index);
      TouchKeeps(v, id, done);
      CompleteUnfolds(v, id, index, now);
      if AllCompleted(done.items) && t.state.Busy() {
        hide Inv, Settle;
        CompletionIsEnding(w, id, now);
      }
    }
  }

  lemma MarkedIsStaged(v: Service, id: Id, index: nat)
    requires id in v.store.records && index < |v.store.records[id].items|
    requires StagedOk(id, v.store.records[id], v.staged, v.collected) && MayComplete(v, id, index)
    ensures StagedOk(id, Marked(v.store.records[id], index, Completed), v.staged, v.collected)
  {
  }

  /** What completing an item comes to: the item is marked, and if it was the last one
  of a running transfer the transfer ends. */
  lemma CompleteUnfolds(v: Service, id: Id, index: int, now: int)
    requires id in v.store.records && 0 <= index < |v.store.records[id].items|
    requires Validates(Marked(v.store.records[id], index, Completed))
    ensures var done := Marked(v.store.records[id], index, Completed);
            var w := v.(store := v.store.(records := v.store.records[id := done]));
            CompleteSpec(v, id, index, now)
            == if !AllCompleted(done.items) then (w, Fine)
               else if done.state.Busy()
               then
                 var over := w.store.records[id := Moved(done, Completed, NoCause, now)];
                 (Settle(w.(store := w.store.(records := over)), id, now), Fine)
               else (w, Internal)
  {
    var done := Marked(v.store.records[id], index, Completed);
    var w := v.store.(records := v.store.records[id := done]);
    TransitionShape(done.state, Verifying);
    TransitionShape(Verifying, Completed);
    hide CanTransition, Settle;
    if AllCompleted(done.items) && done.state.Busy() {
      var s1 := SetState(w, id, Verifying, NoCause, now).0;
      var s2 := SetState(s1, id, Completed, NoCause, now).0;
      assert s2.records == w.records[id := Moved(done, Completed, NoCause, now)];
      assert s2 == w.(records := w.records[id := Moved(done, Completed, NoCause, now)]);
    }
  }

  lemma CompletionIsEnding(w: Service, id: Id, now: int)
    requires Inv(w) && id in w.store.records && w.store.records[id].state.Busy()
    requires AllCompleted(w.store.records[id].items)
    ensures var over := w.store.records[id := Moved(w.store.records[id], Completed, NoCause, now)];
            Inv(Settle(w.(store := w.store.(records := over)), id, now))
  {
    MovedIsGood(w.store.records[id], Completed, NoCause, now);
    EndKeeps(w, id, Moved(w.store.records[id], Completed, NoCause, now), now);
  }

  // --------------------------------------------------------- declarations

  function DeclaredSum(items: seq<DeclaredItem>): nat {
    if items == [] then 0 else items[0].size + DeclaredSum(items[1..])
  }

  /** The declared total is the sum of the sizes and never wraps: a proposal of named,
  placeable files passes exactly when its sizes add up to less than 64 bits. */
  lemma {:induction false} CheckedTotal(items: seq<DeclaredItem>, total: nat, incoming: bool)
    requires total < U64
    ensures var (sum, r) := CheckItems(items, total, incoming);
            && (r == Fine ==> sum == total + DeclaredSum(items) < U64)
            && ((forall d <- items :: d.named && (incoming ==> d.placeable)) ==>
                  (r == Fine <==> total + DeclaredSum(items) < U64))
    decreases |items|
  {
    if items != [] && items[0].named && total + items[0].size < U64 && (incoming ==> items[0].placeable) {
      CheckedTotal(items[1..], total + items[0].size, incoming);
    }
  }

  lemma {:induction false} NewItemsAreFresh(items: seq<DeclaredItem>)
    ensures var made := NewItems(items);
            && |made| == |items| && SumSizes(made) == DeclaredSum(items) && SumOffsets(made) == 0
            && forall i | 0 <= i < |made| :: made[i].state.Queued? && made[i].offset == 0
  {
    if items != [] {
      NewItemsAreFresh(items[1..]);
      var rest := NewItems(items[1..]);
      assert NewItems(items) == [FileItem(items[0].size, 0, Queued)] + rest;
      assert NewItems(items)[1..] == rest;
    }
  }

  lemma EnqueueKeeps(s: Snapshot, id: Id, t: Transfer)
    requires QueueOk(s) && s.active != Some(id)
    ensures QueueOk(Enqueue(s.(records := s.records[id := t]), id))
  {
  }

  lemma AddedRecordKeeps(v: Service, id: Id, t: Transfer, entries: seq<Id>)
    requires SlotOk(v.store) && RecordsOk(v.store) && HistoryOk(v.store) && RelayOk(v) && UsedOk(v) && Fresh(v, id)
    requires GoodRecord(t) && !t.state.Terminal() && !t.state.Busy() && StagedOk(id, t, v.staged, v.collected)
    ensures var s := Snapshot(v.store.records[id := t], entries, v.store.active, v.store.history);
            var w := v.(store := s, used := v.used + {id});
            SlotOk(s) && RecordsOk(s) && HistoryOk(s) && RelayOk(w) && UsedOk(w)
  {
    hide GoodRecord, StagedOk, EntryFor;
  }

  lemma AddKeeps(v: Service, id: Id, t: Transfer)
    requires Inv(v) && Fresh(v, id)
    requires GoodRecord(t) && !t.state.Terminal() && !t.state.Busy() && StagedOk(id, t, v.staged, v.collected)
    ensures Inv(v.(store := Enqueue(v.store.(records := v.store.records[id := t]), id), used := v.used + {id}))
  {
    hide GoodRecord, StagedOk, QueueOk, RecordsOk, HistoryOk, RelayOk;
    EnqueueKeeps(v.store, id, t);
    AddedRecordKeeps(v, id, t, Enqueue(v.store.(records := v.store.records[id := t]), id).entries);
  }

  lemma DeclareKeeps(v: Service, self: string, id: Id, d: Declaration, now: int)
    requires Inv(v) && Fresh(v, id)
    ensures Inv(DeclareSpec(v, self, id, d, now).0)
  {
    var direction := DirectionOf(self, d);
    var (total, checked) := CheckItems(d.items, 0, direction.Incoming?);
    CheckedTotal(d.items, 0, direction.Incoming?);
    NewItemsAreFresh(d.items);
    hide CheckItems, NewItems, Inv, SumSizes, SumOffsets;
    var (w, r) := DeclareSpec(v, self, id, d, now);
    if r == Fine && w != v {
      var state := if !direction.Outgoing? && d.sender.Ask? then AwaitingAcceptance else Queued;
      var t := Transfer(direction, d.source, d.target, NewItems(d.items), total, 0, state, NoCause, now,
                        None, None, None);
      AddKeeps(v, id, t);
    }
  }

  // ------------------------------------------------------ the other calls

  lemma QueuedKeeps(v: Service, id: Id, now: int)
    requires Inv(v) && id in v.store.records && v.store.records[id].state.AwaitingAcceptance?
    ensures Inv(v.(store := SetState(v.store, id, Queued, NoCause, now).0))
  {
    hide GoodRecord, StagedOk, EntryFor;
    MovedIsGood(v.store.records[id], Queued, NoCause, now);
  }

  lemma AcceptKeeps(v: Service, id: Id, now: int)
    requires Inv(v)
    ensures Inv(AcceptSpec(v, id, now).0)
  {
    hide Inv, FailSpec, SetState;
    FailKeeps(v, id, AcceptanceTimeout, now);
    if id in v.store.records && v.store.records[id].state.AwaitingAcceptance? {
      QueuedKeeps(v, id, now);
    }
  }

  lemma DequeueKeeps(v: Service, id: Id)
    requires Inv(v) && (id in v.store.records ==> v.store.records[id].state.Terminal())
    ensures Inv(v.(store := Dequeue(v.store, id)))
  {
    hide Without, GoodRecord, StagedOk, EntryFor;
    WithoutKeeps(v.store.entries, id);
  }

  lemma CancelKeeps(v: Service, id: Id, now: int)
    requires Inv(v)
    ensures Inv(CancelSpec(v, id, now).0)
  {
    if id in v.store.records && !v.store.records[id].state.Terminal() {
      var t := Moved(v.store.records[id], Cancelled, NoCause, now);
      CanEnd(v, id, Cancelled, NoCause, now);
      MovedIsGood(v.store.records[id], Cancelled, NoCause, now);
      MovedStanding(v.store.records[id], Cancelled, NoCause, now);
      EndKeeps(v, id, t, now);
      SettleUnfolds(v, id, t, now);
      var w := v.(store := v.store.(records := v.store.records[id := t]));
      DequeueKeeps(Settle(w, id, now), id);
      hide Without, EntryFor, Inv;
      assert Settle(w.(store := Dequeue(w.store, id)), id, now)
             == Settle(w, id, now).(store := Dequeue(Settle(w, id, now).store, id));
    }
  }

  lemma StartIfWaitingKeeps(v: Service, id: Id, now: int)
    requires Inv(v)
    ensures Inv(StartIfWaiting(v, id, now).0)
  {
    if id in v.store.records && (v.store.records[id].state.Queued? || v.store.records[id].state.Interrupted?) {
      StartKeeps(v, id, now);
    }
    hide Inv, StartSpec;
  }

  /** Starting touches no item and ends nothing. */
  lemma StartIfWaitingOnlyStarts(v: Service, id: Id, now: int)
    requires id in v.store.records
    ensures var (w, r) := StartIfWaiting(v, id, now);
            && w.(store := v.store) == v
            && id in w.store.records
            && (!v.store.records[id].state.Terminal() ==> !w.store.records[id].state.Terminal())
  {
    hide Without, CanTransition;
  }

  lemma MakeDirKeeps(v: Service, id: Id, made: bool)
    requires Inv(v) && (id in v.store.records ==> !v.store.records[id].state.Terminal())
    ensures Inv(MakeDir(v, id, made)) && MakeDir(v, id, made).store == v.store
  {
    hide GoodRecord, StagedOk, QueueOk, SlotOk, HistoryOk;
  }

  lemma TakeChunkKeeps(v: Service, id: Id, index: int, stored: nat, got: Reception, now: int)
    requires Inv(v) && (id in v.store.records ==> !v.store.records[id].state.Terminal())
    ensures Inv(TakeChunk(v, id, index, stored, got, now).0)
  {
    hide Inv, ProgressSpec, FailSpec, InterruptSpec, MakeDir, SlotOk, QueueOk, RecordsOk, HistoryOk, RelayOk;
    MakeDirKeeps(v, id, got.dirMade);
    var v1 := MakeDir(v, id, got.dirMade);
    ProgressKeeps(v1, id, index, got.committed, now);
    var v2 := if got.committed > stored then ProgressSpec(v1, id, index, got.committed, now) else v1;
    match got.fault
    case Full => FailKeeps(v2, id, DestinationFull, now);
    case Unwritable => FailKeeps(v2, id, DestinationUnwritable, now);
    case Broken => InterruptKeeps(v2, id, now);
    case _ =>
  }

  lemma ReceiveKeeps(v: Service, id: Id, index: int, got: Reception, now: int)
    requires Inv(v)
    ensures Inv(ReceiveSpec(v, id, index, got, now).0)
  {
    hide Inv, StartIfWaiting, TakeChunk;
    StartIfWaitingKeeps(v, id, now);
    if id in v.store.records {
      StartIfWaitingOnlyStarts(v, id, now);
      var t := v.store.records[id];
      if 0 <= index < |t.items| && !t.state.Terminal() {
        TakeChunkKeeps(StartIfWaiting(v, id, now).0, id, index, t.items[index].offset, got, now);
      }
    }
  }

  lemma StageKeeps(v: Service, id: Id, index: nat)
    requires Inv(v) && id in v.store.records && !v.store.records[id].state.Terminal()
    requires index < |v.store.records[id].items|
    ensures Inv(StageSpec(v, id, index).0)
  {
    var t := Marked(v.store.records[id], index, Verifying);
    MarkedIsGood(v.store.records[id], index, Verifying);
    var w := v.(staged := v.staged + {(id, index)});
    hide GoodRecord, QueueOk, SlotOk, HistoryOk;
    assert Inv(w);
    TouchKeeps(w, id, t);
  }

  lemma VerifiedKeeps(v: Service, id: Id, index: nat)
    requires Inv(v)
    ensures Inv(Verified(v, id, index))
  {
    hide SlotOk, QueueOk, RecordsOk, HistoryOk;
  }

  lemma TakeItemKeeps(v: Service, id: Id, index: nat, got: Placement, now: int)
    requires Inv(v) && id in v.store.records && index < |v.store.records[id].items|
    requires !v.store.records[id].state.Terminal()
    ensures Inv(TakeItem(v, id, index, got, now).0)
  {
    hide Inv, FailSpec, CompleteSpec, StageSpec, MakeDir;
    MakeDirKeeps(v, id, got.dirMade);
    var v1 := MakeDir(v, id, got.dirMade);
    if !v.store.records[id].direction.Relayed? && !got.resolves {
      FailKeeps(v1, id, SourceUnreadable, now);
    }
    match got.verdict
    case BadDigest => FailKeeps(v1, id, ChecksumMismatch, now);
    case BadPlace => FailKeeps(v1, id, DestinationFull, now);
    case Placed =>
      StageKeeps(v1, id, index);
      if !v.store.records[id].direction.Relayed? {
        VerifiedKeeps(v1, id, index);
        CompleteKeeps(Verified(v1, id, index), id, index, now);
      }
  }

  lemma CommitItemKeeps(v: Service, id: Id, index: int, got: Placement, now: int)
    requires Inv(v)
    ensures Inv(CommitItemSpec(v, id, index, got, now).0)
  {
    hide Inv, TakeItem;
    if id in v.store.records && 0 <= index < |v.store.records[id].items| && !v.store.records[id].state.Terminal() {
      TakeItemKeeps(v, id, index, got, now);
    }
  }

  lemma CollectedKeeps(v: Service, id: Id, index: nat)
    requires Inv(v) && id in v.store.records
    ensures Inv(Collected(v, id, index))
  {
    hide SlotOk, QueueOk, RecordsOk, HistoryOk;
  }

  lemma StreamedKeeps(v: Service, id: Id, index: nat, got: Download, size: nat)
    requires Inv(v)
    ensures Inv(Streamed(v, id, index, got, size))
  {
    hide SlotOk, QueueOk, RecordsOk, HistoryOk, StagedOk;
  }

  lemma DeliverRelayedKeeps(v: Service, id: Id, index: nat, got: Download, now: int)
    requires Inv(v) && id in v.store.records && index < |v.store.records[id].items|
    requires v.store.records[id].direction.Relayed?
    ensures Inv(DeliverRelayed(v, id, index, got, now).0)
  {
    var t := v.store.records[id];
    assert StagedOk(id, t, v.staged, v.collected);
    hide Inv, CompleteSpec, InterruptSpec;
    var v1 := Streamed(v, id, index, got, t.items[index].size);
    StreamedKeeps(v, id, index, got, t.items[index].size);
    InterruptKeeps(v1, id, now);
    CollectedKeeps(v1, id, index);
    if t.items[index].state.Verifying? || t.items[index].state.Completed? {
      CompleteKeeps(Collected(v1, id, index), id, index, now);
    }
  }

  lemma ProgressOnlyProgresses(v: Service, id: Id, index: nat, committed: nat, now: int)
    requires id in v.store.records
    ensures var w := ProgressSpec(v, id, index, committed, now);
            id in w.store.records && w.store.records[id].direction == v.store.records[id].direction
  {
  }

  lemma DeliverPipedKeeps(v: Service, id: Id, index: nat, got: Download, now: int)
    requires Inv(v) && id in v.store.records && index < |v.store.records[id].items|
    requires !v.store.records[id].direction.Relayed?
    ensures Inv(DeliverPiped(v, id, index, got, now).0)
  {
    hide Inv, CompleteSpec, InterruptSpec, ProgressSpec;
    ProgressKeeps(v, id, index, got.offset + got.written, now);
    ProgressOnlyProgresses(v, id, index, got.offset + got.written, now);
    var v1 := ProgressSpec(v, id, index, got.offset + got.written, now);
    InterruptKeeps(v1, id, now);
    CollectedKeeps(v1, id, index);
    CompleteKeeps(Collected(v1, id, index), id, index, now);
  }

  lemma DeliverKeeps(v: Service, id: Id, index: int, got: Download, now: int)
    requires Inv(v)
    ensures Inv(DeliverSpec(v, id, index, got, now).0)
  {
    hide Inv, DeliverRelayed, DeliverPiped;
    if id in v.store.records && 0 <= index < |v.store.records[id].items| {
      if v.store.records[id].direction.Relayed? {
        DeliverRelayedKeeps(v, id, index, got, now);
      } else {
        DeliverPipedKeeps(v, id, index, got, now);
      }
    }
  }
}
