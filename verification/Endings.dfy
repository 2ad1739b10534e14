/**
How records change over time: endings are final, offsets only grow, and a relayed item
is complete only once its target has it.
*/
module Endings {
  import opened Common
  import opened Records
  import opened Service
  import opened Lifecycle
  import opened ServiceRuns

  /** A record at a later time: same files and sizes, offsets no smaller, and once over
  always over in the same way. */
  ghost predicate Grew(t: Transfer, u: Transfer) {
    && t.direction == u.direction && t.source == u.source && t.target == u.target && t.total == u.total
    && |t.items| == |u.items|
    && (forall i | 0 <= i < |t.items| :: t.items[i].size == u.items[i].size && t.items[i].offset <= u.items[i].offset)
    && (t.state.Terminal() ==> u.state == t.state && u.cause == t.cause && u.endedAt == t.endedAt)
  }

  /** A store at a later time: records grew and only live ones are gone; what history
  held of finished or deleted transfers it still holds, and it gained exactly what was
  live and has ended. */
  ghost predicate Later(s: Snapshot, w: Snapshot) {
    && (forall id <- s.records ::
          if id in w.records then Grew(s.records[id], w.records[id]) else !s.records[id].state.Terminal())
    && w.records.Keys <= s.records.Keys
    && (forall id <- s.history :: Settled(s, id) ==> id in w.history && w.history[id] == s.history[id])
    && (forall id <- w.history :: id in s.history || !Settled(s, id))
    && (forall id <- w.records :: !Settled(s, id) && w.records[id].state.Terminal() ==> id in w.history)
  }

  /** A transfer that is over, or whose record is gone. */
  predicate Settled(s: Snapshot, id: Id) {
    id in s.records ==> s.records[id].state.Terminal()
  }

  lemma LaterTwice(s: Snapshot, t: Snapshot, w: Snapshot)
    requires Later(s, t) && Later(t, w)
    ensures Later(s, w)
  {
    forall id | id in w.history && id !in s.history ensures !Settled(s, id) {
      if id in t.history {
      } else {
        assert !Settled(t, id);
      }
    }
  }

  lemma SameRecordsLater(s: Snapshot, w: Snapshot)
    requires w.records == s.records && w.history == s.history
    ensures Later(s, w)
  {
  }

  lemma UpdateLater(s: Snapshot, id: Id, t: Transfer)
    requires id in s.records && Grew(s.records[id], t) && (t.state.Terminal() ==> s.records[id].state.Terminal())
    ensures Later(s, s.(records := s.records[id := t]))
  {
  }

  lemma SetStateLater(s: Snapshot, id: Id, to: State, cause: Cause, now: int)
    requires !to.Terminal()
    ensures Later(s, SetState(s, id, to, cause, now).0)
  {
    if id in s.records {
      TransitionShape(s.records[id].state, to);
      if SetState(s, id, to, cause, now).0 != s {
        UpdateLater(s, id, Moved(s.records[id], to, cause, now));
      }
    }
    SameRecordsLater(s, s);
    hide CanTransition;
  }

  lemma AdvanceLater(s: Snapshot, id: Id, index: int, committed: nat, now: int)
    ensures Later(s, Advance(s, id, index, committed, now).0)
    ensures forall x :: Settled(s, x) <==> Settled(Advance(s, id, index, committed, now).0, x)
  {
    var (w, r) := Advance(s, id, index, committed, now);
    SameRecordsLater(s, s);
    if r == Ok {
      UpdateLater(s, id, w.records[id]);
    }
  }

  lemma MarkedLater(s: Snapshot, id: Id, index: nat, state: State)
    requires id in s.records && index < |s.records[id].items|
    ensures Later(s, Put(s, id, Marked(s.records[id], index, state)).0)
  {
    hide Validates;
    SameRecordsLater(s, s);
    UpdateLater(s, id, Marked(s.records[id], index, state));
  }

  /** An ending, from the live record to its history entry. */
  lemma EndLater(v: Service, id: Id, t: Transfer, now: int)
    requires id in v.store.records && !v.store.records[id].state.Terminal()
    requires t.state.Terminal() && t.endedAt.Some? && Grew(v.store.records[id], t)
    ensures Later(v.store, Settle(v.(store := v.store.(records := v.store.records[id := t])), id, now).store)
  {
    SettleUnfolds(v, id, t, now);
    hide Settle, EntryFor;
  }

  lemma StartLater(v: Service, id: Id, now: int)
    ensures Later(v.store, StartIfWaiting(v, id, now).0.store)
  {
    hide Later, SetState, Without;
    SameRecordsLater(v.store, v.store);
    var a := Activate(v.store, id).0;
    SameRecordsLater(v.store, a);
    SetStateLater(a, id, Running, NoCause, now);
    LaterTwice(v.store, a, SetState(a, id, Running, NoCause, now).0);
  }

  lemma InterruptLater(v: Service, id: Id, now: int)
    ensures Later(v.store, InterruptSpec(v, id, now).store)
  {
    hide Later, SetState;
    var s := SetState(v.store, id, Interrupted, NoCause, now).0;
    SetStateLater(v.store, id, Interrupted, NoCause, now);
    SameRecordsLater(s, Deactivate(s, id, true));
    LaterTwice(v.store, s, Deactivate(s, id, true));
  }

  lemma FailLater(v: Service, id: Id, cause: Cause, now: int)
    requires id in v.store.records ==> !v.store.records[id].state.Terminal()
    ensures Later(v.store, FailSpec(v, id, cause, now).store)
  {
    hide Later, SetState, Settle;
    SameRecordsLater(v.store, v.store);
    if id in v.store.records {
      CanEnd(v, id, Failed, cause, now);
      EndLater(v, id, Moved(v.store.records[id], Failed, cause, now), now);
    } else {
      UnknownSettles(v, id, Failed, cause, now);
    }
  }

  lemma UnknownSettles(v: Service, id: Id, to: State, cause: Cause, now: int)
    requires id !in v.store.records
    ensures SetState(v.store, id, to, cause, now).0 == v.store && Later(v.store, Settle(v, id, now).store)
  {
    SameRecordsLater(v.store, Settle(v, id, now).store);
  }

  lemma CompleteLater(v: Service, id: Id, index: int, now: int)
    ensures Later(v.store, CompleteSpec(v, id, index, now).0.store)
  {
    hide Later, Settle, CanTransition;
    SameRecordsLater(v.store, v.store);
    if id in v.store.records && 0 <= index < |v.store.records[id].items| {
      var done := Marked(v.store.records[id], index, Completed);
      var w := v.(store := v.store.(records := v.store.records[id := done]));
      if Validates(done) {
        MarkedLater(v.store, id, index, Completed);
        CompleteUnfolds(v, id, index, now);
        if AllCompleted(done.items) && done.state.Busy() {
          EndLater(w, id, Moved(done, Completed, NoCause, now), now);
          LaterTwice(v.store, w.store, CompleteSpec(v, id, index, now).0.store);
        }
      }
    }
  }

  lemma CancelLater(v: Service, id: Id, now: int)
    ensures Later(v.store, CancelSpec(v, id, now).0.store)
  {
    hide Later, Settle, SetState, Without;
    SameRecordsLater(v.store, v.store);
    if id in v.store.records && !v.store.records[id].state.Terminal() {
      CanEnd(v, id, Cancelled, NoCause, now);
      var d := v.(store := Dequeue(v.store, id));
      SameRecordsLater(v.store, d.store);
      EndLater(d, id, Moved(v.store.records[id], Cancelled, NoCause, now), now);
      LaterTwice(v.store, d.store, CancelSpec(v, id, now).0.store);
    }
  }

  lemma TakeChunkLater(v: Service, id: Id, index: int, stored: nat, got: Reception, now: int)
    requires id in v.store.records ==> !v.store.records[id].state.Terminal()
    ensures Later(v.store, TakeChunk(v, id, index, stored, got, now).0.store)
  {
    hide Later, FailSpec, InterruptSpec, Advance;
    var v1 := MakeDir(v, id, got.dirMade);
    var v2 := if got.committed > stored then ProgressSpec(v1, id, index, got.committed, now) else v1;
    SameRecordsLater(v.store, v.store);
    AdvanceLater(v.store, id, index, got.committed, now);
    LiveAfterAdvance(v.store, id, index, got.committed, now);
    match got.fault
    case Full =>
      FailLater(v2, id, DestinationFull, now);
      LaterTwice(v.store, v2.store, FailSpec(v2, id, DestinationFull, now).store);
    case Unwritable =>
      FailLater(v2, id, DestinationUnwritable, now);
      LaterTwice(v.store, v2.store, FailSpec(v2, id, DestinationUnwritable, now).store);
    case Broken =>
      InterruptLater(v2, id, now);
      LaterTwice(v.store, v2.store, InterruptSpec(v2, id, now).store);
    case _ =>
  }

  lemma LiveAfterAdvance(s: Snapshot, id: Id, index: int, committed: nat, now: int)
    requires id in s.records ==> !s.records[id].state.Terminal()
    ensures var w := Advance(s, id, index, committed, now).0;
            id in w.records ==> !w.records[id].state.Terminal()
  {
  }

  lemma ReceiveLater(v: Service, id: Id, index: int, got: Reception, now: int)
    ensures Later(v.store, ReceiveSpec(v, id, index, got, now).0.store)
  {
    hide Later, StartIfWaiting, TakeChunk;
    SameRecordsLater(v.store, v.store);
    StartLater(v, id, now);
    var w := StartIfWaiting(v, id, now).0;
    if id in v.store.records && 0 <= index < |v.store.records[id].items| && !v.store.records[id].state.Terminal() {
      StartIfWaitingOnlyStarts(v, id, now);
      var stored := v.store.records[id].items[index].offset;
      TakeChunkLater(w, id, index, stored, got, now);
      LaterTwice(v.store, w.store, TakeChunk(w, id, index, stored, got, now).0.store);
    }
  }

  lemma CommitItemLater(v: Service, id: Id, index: int, got: Placement, now: int)
    ensures Later(v.store, CommitItemSpec(v, id, index, got, now).0.store)
  {
    hide Later, FailSpec, CompleteSpec, Put;
    SameRecordsLater(v.store, v.store);
    if id in v.store.records && 0 <= index < |v.store.records[id].items| && !v.store.records[id].state.Terminal() {
      var w := MakeDir(v, id, got.dirMade);
      FailLater(w, id, SourceUnreadable, now);
      match got.verdict
      case BadDigest => FailLater(w, id, ChecksumMismatch, now);
      case BadPlace => FailLater(w, id, DestinationFull, now);
      case Placed =>
        CompleteLater(Verified(w, id, index), id, index, now);
        MarkedLater(v.store, id, index, Verifying);
    }
  }

  lemma DeliverLater(v: Service, id: Id, index: int, got: Download, now: int)
    ensures Later(v.store, DeliverSpec(v, id, index, got, now).0.store)
  {
    hide Later, CompleteSpec, InterruptSpec, Advance;
    SameRecordsLater(v.store, v.store);
    if id in v.store.records && 0 <= index < |v.store.records[id].items| {
      if v.store.records[id].direction.Relayed? {
        var v1 := Streamed(v, id, index, got, v.store.records[id].items[index].size);
        InterruptLater(v1, id, now);
        CompleteLater(Collected(v1, id, index), id, index, now);
      } else {
        AdvanceLater(v.store, id, index, got.offset + got.written, now);
        var w := ProgressSpec(v, id, index, got.offset + got.written, now);
        InterruptLater(w, id, now);
        CompleteLater(Collected(w, id, index), id, index, now);
        LaterTwice(v.store, w.store, InterruptSpec(w, id, now).store);
        LaterTwice(v.store, w.store, CompleteSpec(Collected(w, id, index), id, index, now).0.store);
      }
    }
  }

  lemma AcceptLater(v: Service, id: Id, now: int)
    ensures Later(v.store, AcceptSpec(v, id, now).0.store)
  {
    hide Later, FailSpec, SetState;
    SameRecordsLater(v.store, v.store);
    if id in v.store.records && !v.store.records[id].state.Terminal() {
      FailLater(v, id, AcceptanceTimeout, now);
      SetStateLater(v.store, id, Queued, NoCause, now);
    }
  }

  lemma {:induction false} ExpireLater(v: Service, ids: seq<Id>, now: int)
    ensures Later(v.store, ExpireSpec(v, ids, now).store)
    decreases |ids|
  {
    hide Later, FailSpec;
    SameRecordsLater(v.store, v.store);
    if ids != [] {
      var overdue := ids[0] in v.store.records && Overdue(v.store.records[ids[0]], now);
      if overdue { FailLater(v, ids[0], AcceptanceTimeout, now); }
      var next := if overdue then FailSpec(v, ids[0], AcceptanceTimeout, now) else v;
      ExpireLater(next, ids[1..], now);
      LaterTwice(v.store, next.store, ExpireSpec(next, ids[1..], now).store);
    }
  }

  lemma {:induction false} RecoverLater(v: Service, ids: seq<Id>, now: int)
    ensures Later(v.store, RecoverSpec(v, ids, now).store)
    decreases |ids|
  {
    hide Later, InterruptSpec;
    SameRecordsLater(v.store, v.store);
    if ids != [] {
      InterruptLater(v, ids[0], now);
      var next := if ids[0] in v.store.records && v.store.records[ids[0]].state.Busy()
                  then InterruptSpec(v, ids[0], now) else v;
      RecoverLater(next, ids[1..], now);
      LaterTwice(v.store, next.store, RecoverSpec(next, ids[1..], now).store);
    }
  }

  lemma SweepOneDeletesAndRecords(s: Snapshot, id: Id, now: int)
    requires id in s.records && !s.records[id].state.Terminal()
    ensures var e := EntryFor(Moved(s.records[id], Failed, Abandoned, now), now);
            && e.Some?
            && SweepOne(s, id, now).records == s.records - {id}
            && SweepOne(s, id, now).history == s.history[id := e.value]
  {
    TransitionShape(s.records[id].state, Failed);
    hide CanTransition, Without;
  }

  lemma SweepOneLater(s: Snapshot, id: Id, now: int)
    requires id in s.records && !s.records[id].state.Terminal()
    ensures Later(s, SweepOne(s, id, now))
  {
    hide SweepOne, EntryFor, Moved;
    SweepOneDeletesAndRecords(s, id, now);
  }

  lemma {:induction false} SweepLater(s: Snapshot, ids: seq<Id>, now: int)
    ensures Later(s, SweepRecords(s, ids, now))
    decreases |ids|
  {
    hide Later, SweepOne;
    SameRecordsLater(s, s);
    if ids != [] {
      if ids[0] in s.records && Abandonable(s.records[ids[0]], now) {
        SweepOneLater(s, ids[0], now);
        var next := SweepOne(s, ids[0], now);
        SweepLater(next, ids[1..], now);
        LaterTwice(s, next, SweepRecords(next, ids[1..], now));
      } else {
        SweepLater(s, ids[1..], now);
      }
    }
  }

  /** The calls that are not about history as such, on a store that holds what the
  invariant says: all of them but a declaration, an erasure, and failing what is over. */
  predicate Ordinary(v: Service, c: Call) {
    !c.Declare? && !c.Clear? && (c.Fail? ==> !Settled(v.store, c.id) || c.id !in v.store.records)
  }

  lemma OrdinaryLater(v: Service, self: string, e: Timed)
    requires Ordinary(v, e.call)
    ensures Later(v.store, Step(v, self, e).store)
  {
    hide Later, DeclareSpec, AcceptSpec, ExpireSpec, ReceiveSpec, CommitItemSpec, StartIfWaiting, DeliverSpec,
         Advance, InterruptSpec, FailSpec, CancelSpec, RecoverSpec, SweepRecords;
    SameRecordsLater(v.store, v.store);
    match e.call
    case Accept(id) => AcceptLater(v, id, e.now);
    case Decline(id) =>
      if id in v.store.records && !v.store.records[id].state.Terminal() { FailLater(v, id, Declined, e.now); }
    case Expire(ids) => ExpireLater(v, ids, e.now);
    case Receive(id, index, got) => ReceiveLater(v, id, index, got, e.now);
    case CommitItem(id, index, got) => CommitItemLater(v, id, index, got, e.now);
    case BeginFetch(id) => StartLater(v, id, e.now);
    case Deliver(id, index, got) => DeliverLater(v, id, index, got, e.now);
    case Progress(id, index, committed) => AdvanceLater(v.store, id, index, committed, e.now);
    case Interrupt(id) => InterruptLater(v, id, e.now);
    case Fail(id, cause) => FailLater(v, id, cause, e.now);
    case Cancel(id) => CancelLater(v, id, e.now);
    case Reorder(order) => SameRecordsLater(v.store, Records.Reorder(v.store, order).0);
    case Recover(ids) => RecoverLater(v, ids, e.now);
    case Sweep(ids) => SweepLater(v.store, ids, e.now);
  }

  lemma FailingAgain(v: Service, id: Id, cause: Cause, now: int)
    requires Inv(v) && id in v.store.records && v.store.records[id].state.Terminal()
    ensures EntryFor(v.store.records[id], 0).Some?
    ensures FailSpec(v, id, cause, now)
            == v.(store := v.store.(history := v.store.history[id := EntryFor(v.store.records[id], 0).value]))
  {
    TransitionShape(v.store.records[id].state, Failed);
    hide CanTransition, Inv;
    SettleAgain(v, id, now);
  }

  // -------------------------------------------------------- the whole service

  /** A service at a later time. Identifiers are not given out twice, so a record is
  either one that was there, grown, or a new one; and history has of the past only what
  it had, or what a record of the past has become. */
  ghost predicate After(v: Service, w: Service) {
    && v.used <= w.used
    && (forall id <- v.store.records ::
          if id in w.store.records then Grew(v.store.records[id], w.store.records[id])
          else !v.store.records[id].state.Terminal())
    && (forall id <- w.store.records :: id in v.store.records || id !in v.used)
    && (forall id <- w.store.history :: id in v.store.records || id !in v.used
          || (id in v.store.history && w.store.history[id] == v.store.history[id]))
  }

  lemma AfterTwice(u: Service, v: Service, w: Service)
    requires After(u, v) && After(v, w) && u.store.records.Keys <= u.used
    ensures After(u, w)
  {
  }

  lemma LaterIsAfter(v: Service, w: Service)
    requires Later(v.store, w.store) && v.used == w.used
    ensures After(v, w)
  {
  }

  lemma DeclareAfter(v: Service, self: string, id: Id, d: Declaration, now: int)
    requires UsedOk(v) && Fresh(v, id)
    ensures After(v, DeclareSpec(v, self, id, d, now).0)
    ensures DeclareSpec(v, self, id, d, now).0.store.history == v.store.history
  {
    hide CheckItems, NewItems, Validates;
  }

  lemma {:induction false} RecoverUses(v: Service, ids: seq<Id>, now: int)
    ensures RecoverSpec(v, ids, now).used == v.used
    decreases |ids|
  {
    hide SetState;
    if ids != [] {
      var next := if ids[0] in v.store.records && v.store.records[ids[0]].state.Busy()
                  then InterruptSpec(v, ids[0], now) else v;
      RecoverUses(next, ids[1..], now);
    }
  }

  lemma {:induction false} ExpireUses(v: Service, ids: seq<Id>, now: int)
    ensures ExpireSpec(v, ids, now).used == v.used
    decreases |ids|
  {
    hide SetState;
    if ids != [] {
      var next := if ids[0] in v.store.records && Overdue(v.store.records[ids[0]], now)
                  then FailSpec(v, ids[0], AcceptanceTimeout, now) else v;
      ExpireUses(next, ids[1..], now);
    }
  }

  lemma OnlyDeclareUses(v: Service, self: string, e: Timed)
    requires !e.call.Declare?
    ensures Step(v, self, e).used == v.used
  {
    hide SetState, Put, Advance, Without, ExpireSpec, RecoverSpec, SweepRecords, LiveDirs, Records.Reorder;
    match e.call
    case Recover(ids) => RecoverUses(v, ids, e.now);
    case Expire(ids) => ExpireUses(v, ids, e.now);
    case _ =>
  }

  lemma StepAfter(v: Service, self: string, e: Timed)
    requires Inv(v)
    ensures After(v, Step(v, self, e))
  {
    hide Later, SetState, Settle, DeclareSpec, SlotOk, QueueOk, RecordsOk, HistoryOk, RelayOk;
    if e.call.Declare? {
      if Fresh(v, e.call.id) { DeclareAfter(v, self, e.call.id, e.call.declaration, e.now); }
    } else if e.call.Clear? {
      assert Step(v, self, e) == ClearSpec(v);
    } else if Ordinary(v, e.call) {
      hide Step;
      OrdinaryLater(v, self, e);
      OnlyDeclareUses(v, self, e);
      LaterIsAfter(v, Step(v, self, e));
    } else {
      FailingAgain(v, e.call.id, e.call.cause, e.now);
    }
  }

  lemma {:induction false} RunAfter(v: Service, self: string, es: seq<Timed>)
    requires Inv(v)
    ensures After(v, Run(v, self, es)) && Inv(Run(v, self, es))
    decreases |es|
  {
    hide After, Step, SlotOk, QueueOk, RecordsOk, HistoryOk, RelayOk;
    if es == [] {
      SameIsAfter(v);
    } else {
      var next := Step(v, self, es[0]);
      StepKeeps(v, self, es[0]);
      StepAfter(v, self, es[0]);
      RunAfter(next, self, es[1..]);
      AfterTwice(v, next, Run(v, self, es));
    }
  }

  lemma SameIsAfter(v: Service)
    ensures After(v, v)
  {
  }

  lemma {:induction false} RunsCompose(v: Service, self: string, es: seq<Timed>, fs: seq<Timed>)
    ensures Run(v, self, es + fs) == Run(Run(v, self, es), self, fs)
    decreases |es|
  {
    hide Step;
    if es == [] {
      assert es + fs == fs;
    } else {
      assert (es + fs)[1..] == es[1..] + fs;
      RunsCompose(Step(v, self, es[0]), self, es[1..], fs);
    }
  }

  // ------------------------------------------------------------ main results

  /** Endings are final: whatever calls follow, crashes, sweeps, erasures and late
  requests among them, a transfer that is over keeps its record, its state, its cause
  and its end time. */
  lemma EndingsAreFinal(self: string, es: seq<Timed>, fs: seq<Timed>, id: Id)
    requires var s := Run(EMPTY, self, es).store; id in s.records && s.records[id].state.Terminal()
    ensures var s := Run(EMPTY, self, es).store;
            var w := Run(EMPTY, self, es + fs).store;
            && id in w.records
            && w.records[id].state == s.records[id].state
            && w.records[id].cause == s.records[id].cause
            && w.records[id].endedAt == s.records[id].endedAt
  {
    RunsCompose(EMPTY, self, es, fs);
    Reachable(self, es);
    RunAfter(Run(EMPTY, self, es), self, fs);
  }

  /** History never contradicts itself: whatever calls lie between, two entries under one
  identifier are equal, also of transfers whose records a sweep deleted. */
  lemma EntriesNeverDiffer(self: string, es: seq<Timed>, fs: seq<Timed>, id: Id)
    requires id in Run(EMPTY, self, es).store.history && id in Run(EMPTY, self, es + fs).store.history
    ensures Run(EMPTY, self, es).store.history[id] == Run(EMPTY, self, es + fs).store.history[id]
  {
    var v := Run(EMPTY, self, es);
    RunsCompose(EMPTY, self, es, fs);
    Reachable(self, es);
    RunAfter(v, self, fs);
    hide Run;
    var w := Run(v, self, fs);
    if id in v.store.records {
      SameEntry(v.store.records[id], w.store.records[id]);
    }
  }

  lemma SameEntry(t: Transfer, u: Transfer)
    requires Grew(t, u) && t.state.Terminal() && t.endedAt.Some?
    ensures EntryFor(t, 0) == EntryFor(u, 0)
  {
  }

  /** What the calls since an ending say about its entry: an erasure removes it, failing
  the finished transfer once more writes it again, and nothing else touches it. */
  predicate Remembered(so: bool, fs: seq<Timed>, id: Id) {
    if fs == [] then so
    else
      match fs[|fs| - 1].call
      case Clear => false
      case Fail(other, _) => other == id || Remembered(so, fs[..|fs| - 1], id)
      case _ => Remembered(so, fs[..|fs| - 1], id)
  }

  predicate FailsAgain(e: Timed, id: Id) {
    e.call.Fail? && e.call.id == id
  }

  ghost predicate FailedSince(fs: seq<Timed>, i: nat, id: Id) {
    exists j :: i < j < |fs| && FailsAgain(fs[j], id)
  }

  /** In plain words: after every erasure there was another attempt to fail it. */
  lemma {:induction false} RememberedMeans(fs: seq<Timed>, id: Id)
    ensures Remembered(true, fs, id) <==> forall i :: 0 <= i < |fs| && fs[i].call.Clear? ==> FailedSince(fs, i, id)
  {
    if fs != [] {
      var n := |fs| - 1;
      var gs := fs[..n];
      RememberedMeans(gs, id);
      if fs[n].call.Clear? {
        assert !FailedSince(fs, n, id);
      } else {
        forall i: nat | i < n ensures FailedSince(fs, i, id) <==> FailsAgain(fs[n], id) || FailedSince(gs, i, id) {
          OneMore(fs, i, id);
        }
        hide FailedSince;
        assert forall i :: 0 <= i < n ==> gs[i] == fs[i];
      }
    }
  }

  lemma OneMore(fs: seq<Timed>, i: nat, id: Id)
    requires i < |fs| - 1
    ensures FailedSince(fs, i, id) <==> FailsAgain(fs[|fs| - 1], id) || FailedSince(fs[..|fs| - 1], i, id)
  {
    var gs := fs[..|fs| - 1];
    if FailedSince(fs, i, id) {
      var j :| i < j < |fs| && FailsAgain(fs[j], id);
      assert j < |gs| ==> gs[j] == fs[j];
    }
    if FailedSince(gs, i, id) {
      var j :| i < j < |gs| && FailsAgain(gs[j], id);
      assert fs[j] == gs[j];
    }
  }

  lemma StepRemembers(v: Service, self: string, e: Timed, id: Id)
    requires Inv(v) && id in v.store.records && v.store.records[id].state.Terminal()
    ensures var w := Step(v, self, e);
            id in w.store.history <==>
              match e.call case Clear => false case Fail(other, _) => other == id || id in v.store.history
                           case _ => id in v.store.history
  {
    hide SetState, Settle, DeclareSpec, SlotOk, QueueOk, RecordsOk, HistoryOk, RelayOk;
    if e.call.Declare? {
      if Fresh(v, e.call.id) { DeclareAfter(v, self, e.call.id, e.call.declaration, e.now); }
    } else if e.call.Clear? {
      assert Step(v, self, e) == ClearSpec(v);
    } else if Ordinary(v, e.call) {
      hide Step;
      OrdinaryLater(v, self, e);
    } else {
      FailingAgain(v, e.call.id, e.call.cause, e.now);
    }
  }

  lemma {:induction false} RunRemembers(v: Service, self: string, fs: seq<Timed>, id: Id)
    requires Inv(v) && id in v.store.records && v.store.records[id].state.Terminal()
    ensures id in Run(v, self, fs).store.history <==> Remembered(id in v.store.history, fs, id)
    decreases |fs|
  {
    hide Inv, After, Step, Remembered;
    RunAfter(v, self, fs);
    if fs == [] {
      NothingSince(id in v.store.history, id);
    } else {
      var n := |fs| - 1;
      var w := Run(v, self, fs[..n]);
      assert fs == fs[..n] + [fs[n]];
      RunsCompose(v, self, fs[..n], [fs[n]]);
      assert [fs[n]][1..] == [];
      assert Run(w, self, [fs[n]]) == Run(Step(w, self, fs[n]), self, []);
      RunAfter(v, self, fs[..n]);
      RunRemembers(v, self, fs[..n], id);
      StillOver(v, w, id);
      StepRemembers(w, self, fs[n], id);
      LastSince(id in v.store.history, fs, id);
    }
  }

  lemma NothingSince(so: bool, id: Id)
    ensures Remembered(so, [], id) == so
  {
  }

  lemma LastSince(so: bool, fs: seq<Timed>, id: Id)
    requires fs != []
    ensures Remembered(so, fs, id)
            == match fs[|fs| - 1].call
               case Clear => false
               case Fail(other, _) => other == id || Remembered(so, fs[..|fs| - 1], id)
               case _ => Remembered(so, fs[..|fs| - 1], id)
  {
  }

  lemma StillOver(v: Service, w: Service, id: Id)
    requires After(v, w) && id in v.store.records && v.store.records[id].state.Terminal()
    ensures id in w.store.records && w.store.records[id].state.Terminal()
  {
  }

  /** The life of a history entry. The call that ends a transfer writes it, and from then
  on it is there exactly as long as no erasure follows that no later attempt to fail the
  finished transfer makes good; it always says how the transfer ended. */
  lemma RememberedUntilErased(self: string, es: seq<Timed>, e: Timed, fs: seq<Timed>, id: Id)
    requires var s := Run(EMPTY, self, es).store; id in s.records && !s.records[id].state.Terminal()
    requires var t := Run(EMPTY, self, es + [e]).store; id in t.records && t.records[id].state.Terminal()
    ensures var t := Run(EMPTY, self, es + [e]).store;
            var w := Run(EMPTY, self, es + [e] + fs).store;
            && (id in w.history <==>
                  forall i :: 0 <= i < |fs| && fs[i].call.Clear? ==> FailedSince(fs, i, id))
            && (id in w.history ==> Some(w.history[id]) == EntryFor(t.records[id], 0))
  {
    var v := Run(EMPTY, self, es);
    var u := Run(EMPTY, self, es + [e]);
    RunsCompose(EMPTY, self, es, [e]);
    RunsCompose(EMPTY, self, es + [e], fs);
    assert [e][1..] == [];
    assert u == Step(v, self, e);
    Reachable(self, es);
    Reachable(self, es + [e]);
    Reachable(self, es + [e] + fs);
    EndingIsWritten(v, self, e, id);
    RunRemembers(u, self, fs, id);
    RememberedMeans(fs, id);
    if id in Run(u, self, fs).store.history {
      EntriesNeverDiffer(self, es + [e], fs, id);
    }
  }

  lemma EndingIsWritten(v: Service, self: string, e: Timed, id: Id)
    requires Inv(v) && id in v.store.records && !v.store.records[id].state.Terminal()
    requires id in Step(v, self, e).store.records && Step(v, self, e).store.records[id].state.Terminal()
    ensures id in Step(v, self, e).store.history
  {
    hide SetState, Settle, DeclareSpec, SlotOk, QueueOk, RecordsOk, HistoryOk, RelayOk;
    if e.call.Declare? {
      if Fresh(v, e.call.id) { DeclareTouchesOne(v, self, e.call.id, e.call.declaration, e.now); }
    } else if Ordinary(v, e.call) {
      hide Step;
      OrdinaryLater(v, self, e);
    } else if e.call.Fail? {
      FailingAgain(v, e.call.id, e.call.cause, e.now);
    }
  }

  lemma DeclareTouchesOne(v: Service, self: string, id: Id, d: Declaration, now: int)
    requires UsedOk(v) && Fresh(v, id)
    ensures forall x <- v.store.records ::
              x in DeclareSpec(v, self, id, d, now).0.store.records
              && DeclareSpec(v, self, id, d, now).0.store.records[x] == v.store.records[x]
  {
    hide CheckItems, NewItems, Validates;
  }

  /** Offsets only grow: while a transfer has a record, no calls move an item back. */
  lemma OffsetsOnlyGrow(self: string, es: seq<Timed>, fs: seq<Timed>, id: Id, i: nat)
    requires id in Run(EMPTY, self, es).store.records && id in Run(EMPTY, self, es + fs).store.records
    requires i < |Run(EMPTY, self, es).store.records[id].items|
    ensures var t := Run(EMPTY, self, es).store.records[id];
            var u := Run(EMPTY, self, es + fs).store.records[id];
            && |u.items| == |t.items| && t.items[i].offset <= u.items[i].offset <= u.items[i].size == t.items[i].size
  {
    RunsCompose(EMPTY, self, es, fs);
    Reachable(self, es);
    RunAfter(Run(EMPTY, self, es), self, fs);
    Reachable(self, es + fs);
    hide Run;
    assert GoodRecord(Run(EMPTY, self, es + fs).store.records[id]);
  }
}
