/** Runs of the transfer service, and what holds in all of them. */
module ServiceRuns {
  import opened Common
  import opened Records
  import opened Service
  import opened Lifecycle

  // ------------------------------------------------- the remaining calls

  lemma ReorderKeeps(v: Service, order: seq<Id>)
    requires Inv(v)
    ensures Inv(v.(store := Records.Reorder(v.store, order).0))
  {
  }

  lemma {:induction false} ExpireKeeps(v: Service, ids: seq<Id>, now: int)
    requires Inv(v)
    ensures Inv(ExpireSpec(v, ids, now))
    decreases |ids|
  {
    hide Inv, FailSpec;
    if ids != [] {
      FailKeeps(v, ids[0], AcceptanceTimeout, now);
      var next := if ids[0] in v.store.records && Overdue(v.store.records[ids[0]], now)
                  then FailSpec(v, ids[0], AcceptanceTimeout, now) else v;
      ExpireKeeps(next, ids[1..], now);
    }
  }

  /** The one transfer that a crash left in the slot, if any, is interrupted; nothing
  else is touched, in whatever order the records are visited. */
  lemma {:induction false} RecoverIs(v: Service, ids: seq<Id>, now: int)
    requires Inv(v)
    ensures RecoverSpec(v, ids, now)
            == if v.store.active.Some? && v.store.active.value in ids
               then InterruptSpec(v, v.store.active.value, now) else v
    decreases |ids|
  {
    if ids != [] {
      var busy := ids[0] in v.store.records && v.store.records[ids[0]].state.Busy();
      assert busy <==> v.store.active == Some(ids[0]);
      if busy {
        InterruptKeeps(v, ids[0], now);
        assert InterruptSpec(v, ids[0], now).store.active == None;
        RecoverIs(InterruptSpec(v, ids[0], now), ids[1..], now);
      } else {
        RecoverIs(v, ids[1..], now);
      }
    }
  }

  lemma RecoverKeeps(v: Service, ids: seq<Id>, now: int)
    requires Inv(v)
    ensures Inv(RecoverSpec(v, ids, now))
  {
    hide Inv, InterruptSpec, RecoverSpec;
    RecoverIs(v, ids, now);
    if v.store.active.Some? {
      InterruptKeeps(v, v.store.active.value, now);
    }
  }

  /** What a crash costs. Recovery over all the records empties the slot and sends the
  transfer that held it to the back of the list as interrupted, with every offset it
  had; everything else is as it was, and recovering again changes nothing. */
  lemma RecoveryIsExact(v: Service, ids: seq<Id>, now: int, again: int)
    requires Inv(v) && forall id <- v.store.records :: id in ids
    ensures var w := RecoverSpec(v, ids, now);
            && w.store.active == None
            && RecoverSpec(w, ids, again) == w
            && w == w.(store := w.store) && w.relayDirs == v.relayDirs && w.store.history == v.store.history
            && (v.store.active.None? ==> w == v)
            && (v.store.active.Some? ==>
                  var a := v.store.active.value;
                  && w.store.entries == v.store.entries + [a]
                  && w.store.records == v.store.records[a := v.store.records[a].(state := Interrupted)])
  {
    hide RecoverSpec, GoodRecord, RelayOk, HistoryOk, QueueOk, CanTransition;
    RecoverIs(v, ids, now);
    RecoverKeeps(v, ids, now);
    RecoverIs(RecoverSpec(v, ids, now), ids, again);
    if v.store.active.Some? {
      TransitionShape(v.store.records[v.store.active.value].state, Interrupted);
    }
  }

  // ----------------------------------------------------------- sweeping

  lemma DeleteKeeps(v: Service, id: Id)
    requires Inv(v) && v.relayDirs == {} && v.store.active != Some(id)
    ensures Inv(v.(store := Delete(v.store, id)))
  {
    hide GoodRecord, StagedOk, EntryFor;
  }

  lemma SweepOneIs(v: Service, id: Id, now: int)
    requires Inv(v) && v.relayDirs == {} && id in v.store.records && !v.store.records[id].state.Terminal()
    ensures var failed := FailSpec(v, id, Abandoned, now);
            && v.(store := SweepOne(v.store, id, now)) == failed.(store := Delete(Dequeue(failed.store, id), id))
            && id in failed.store.records && failed.store.records[id].state.Terminal() && failed.relayDirs == {}
  {
    CanEnd(v, id, Failed, Abandoned, now);
    MovedStanding(v.store.records[id], Failed, Abandoned, now);
    hide Inv, Without, EntryFor, Moved, CanTransition;
  }

  lemma SweepOneKeeps(v: Service, id: Id, now: int)
    requires Inv(v) && v.relayDirs == {} && id in v.store.records && !v.store.records[id].state.Terminal()
    ensures Inv(v.(store := SweepOne(v.store, id, now)))
  {
    SweepOneIs(v, id, now);
    FailKeeps(v, id, Abandoned, now);
    var failed := FailSpec(v, id, Abandoned, now);
    DequeueKeeps(failed, id);
    var dequeued := failed.(store := Dequeue(failed.store, id));
    assert dequeued.store.active != Some(id);
    DeleteKeeps(dequeued, id);
  }

  lemma {:induction false} SweepRecordsKeeps(v: Service, ids: seq<Id>, now: int)
    requires Inv(v) && v.relayDirs == {}
    ensures Inv(v.(store := SweepRecords(v.store, ids, now)))
    decreases |ids|
  {
    hide Inv, SweepOne;
    if ids != [] {
      if ids[0] in v.store.records && Abandonable(v.store.records[ids[0]], now) {
        SweepOneKeeps(v, ids[0], now);
        SweepRecordsKeeps(v.(store := SweepOne(v.store, ids[0], now)), ids[1..], now);
      } else {
        SweepRecordsKeeps(v, ids[1..], now);
      }
    }
  }

  /** A sweep of the records deletes exactly the abandoned ones among those it visits. */
  lemma {:induction false} SweepSurvivors(s: Snapshot, ids: seq<Id>, now: int)
    ensures var w := SweepRecords(s, ids, now);
            && (forall id :: id in w.records <==> id in s.records && !(id in ids && Abandonable(s.records[id], now)))
            && (forall id <- w.records :: w.records[id] == s.records[id])
    decreases |ids|
  {
    if ids != [] {
      var abandoned := ids[0] in s.records && Abandonable(s.records[ids[0]], now);
      var next := if abandoned then SweepOne(s, ids[0], now) else s;
      SweepSurvivors(next, ids[1..], now);
      if abandoned { SweepOneDeletes(s, ids[0], now); }
      hide SweepOne, Abandonable;
      assert forall id :: id in ids <==> id == ids[0] || id in ids[1..];
    }
  }

  lemma SweepOneDeletes(s: Snapshot, id: Id, now: int)
    ensures forall x :: x in SweepOne(s, id, now).records <==> x in s.records && x != id
    ensures forall x <- SweepOne(s, id, now).records :: SweepOne(s, id, now).records[x] == s.records[x]
  {
    hide CanTransition, Without, EntryFor;
  }

  lemma LiveDirsKeep(v: Service, dirs: set<Id>)
    requires Inv(v) && v.relayDirs == {}
    requires forall id <- dirs :: id in v.store.records ==> v.store.records[id].direction.Relayed?
    ensures Inv(v.(relayDirs := LiveDirs(v.(relayDirs := dirs))))
  {
    hide SlotOk, QueueOk, RecordsOk, HistoryOk;
  }

  /** Everything the invariant says but for the directories on the disk, which may be
  whatever a crash left of relayed transfers or of none. */
  ghost predicate InvButDirs(v: Service) {
    && Inv(v.(relayDirs := {}))
    && forall id <- v.relayDirs :: id in v.store.records ==> v.store.records[id].direction.Relayed?
  }

  lemma InvIsEnough(v: Service)
    requires Inv(v)
    ensures InvButDirs(v)
  {
    hide SlotOk, QueueOk, RecordsOk, HistoryOk;
  }

  /** Whatever directories are found, from whatever crash, a sweep re-establishes the
  whole invariant: it keeps exactly the directories of transfers in flight that it does
  not end as abandoned. */
  lemma SweepRestores(v: Service, ids: seq<Id>, now: int)
    requires InvButDirs(v)
    ensures var w := SweepSpec(v, ids, now);
            && Inv(w)
            && (forall id :: id in w.relayDirs <==>
                  && id in v.relayDirs && id in v.store.records && !v.store.records[id].state.Terminal()
                  && !(id in ids && Abandonable(v.store.records[id], now)))
  {
    var v0 := v.(relayDirs := {});
    SweepRecordsKeeps(v0, ids, now);
    SweepSurvivors(v.store, ids, now);
    var w := v0.(store := SweepRecords(v.store, ids, now));
    hide Inv, SweepRecords, Abandonable;
    LiveDirsKeep(w, v.relayDirs);
    assert SweepSpec(v, ids, now) == w.(relayDirs := LiveDirs(w.(relayDirs := v.relayDirs)));
  }

  lemma SweepKeeps(v: Service, ids: seq<Id>, now: int)
    requires Inv(v)
    ensures Inv(SweepSpec(v, ids, now))
  {
    hide Inv, SweepSpec;
    InvIsEnough(v);
    SweepRestores(v, ids, now);
  }

  lemma ClearKeeps(v: Service)
    requires Inv(v)
    ensures Inv(ClearSpec(v))
  {
    hide GoodRecord, StagedOk, EntryFor;
  }

  // ------------------------------------------------------------------ runs

  /** Every call of the service keeps the invariant. */
  lemma StepKeeps(v: Service, self: string, e: Timed)
    requires Inv(v)
    ensures Inv(Step(v, self, e))
  {
    hide Inv, DeclareSpec, AcceptSpec, ExpireSpec, ReceiveSpec, CommitItemSpec, StartIfWaiting, DeliverSpec,
         ProgressSpec, InterruptSpec, FailSpec, CancelSpec, RecoverSpec, SweepSpec;
    match e.call
    case Declare(id, d) => if Fresh(v, id) { DeclareKeeps(v, self, id, d, e.now); }
    case Accept(id) => AcceptKeeps(v, id, e.now);
    case Decline(id) => FailKeeps(v, id, Declined, e.now);
    case Expire(ids) => ExpireKeeps(v, ids, e.now);
    case Receive(id, index, got) => ReceiveKeeps(v, id, index, got, e.now);
    case CommitItem(id, index, got) => CommitItemKeeps(v, id, index, got, e.now);
    case BeginFetch(id) => StartIfWaitingKeeps(v, id, e.now);
    case Deliver(id, index, got) => DeliverKeeps(v, id, index, got, e.now);
    case Progress(id, index, committed) => ProgressKeeps(v, id, index, committed, e.now);
    case Interrupt(id) => InterruptKeeps(v, id, e.now);
    case Fail(id, cause) => FailKeeps(v, id, cause, e.now);
    case Cancel(id) => CancelKeeps(v, id, e.now);
    case Reorder(order) => ReorderKeeps(v, order);
    case Recover(ids) => RecoverKeeps(v, ids, e.now);
    case Sweep(ids) => SweepKeeps(v, ids, e.now);
    case Clear => ClearKeeps(v);
  }

  lemma {:induction false} RunKeeps(v: Service, self: string, es: seq<Timed>)
    requires Inv(v)
    ensures Inv(Run(v, self, es))
    decreases |es|
  {
    hide Inv, Step;
    if es != [] {
      StepKeeps(v, self, es[0]);
      RunKeeps(Step(v, self, es[0]), self, es[1..]);
    }
  }

  /** A service that starts empty satisfies the invariant after any calls. */
  lemma Reachable(self: string, es: seq<Timed>)
    ensures Inv(Run(EMPTY, self, es))
  {
    RunKeeps(EMPTY, self, es);
  }

  /** One at a time: after any calls, the slot is taken exactly when some transfer is
  running or verifying, and it names that transfer, so there is never a second one. */
  lemma OneAtATime(self: string, es: seq<Timed>)
    ensures var s := Run(EMPTY, self, es).store;
            && (s.active.Some? <==> exists id :: id in s.records && s.records[id].state.Busy())
            && (forall id <- s.records :: s.records[id].state.Busy() <==> s.active == Some(id))
  {
    Reachable(self, es);
    var s := Run(EMPTY, self, es).store;
    if s.active.Some? {
      assert s.records[s.active.value].state.Busy();
    }
  }

  /** Nothing is lost: after any calls, every transfer that is not over holds the slot
  or waits, nothing waits twice, and what runs does not wait. */
  lemma NothingIsLost(self: string, es: seq<Timed>)
    ensures var s := Run(EMPTY, self, es).store;
            && (forall id <- s.records :: !s.records[id].state.Terminal() ==> s.active == Some(id) || id in s.entries)
            && (forall i, j :: 0 <= i < j < |s.entries| ==> s.entries[i] != s.entries[j])
            && (s.active.Some? ==> s.active.value !in s.entries)
  {
    Reachable(self, es);
    var s := Run(EMPTY, self, es).store;
    NoneTwice(s.entries);
  }

  lemma NoneTwice(entries: seq<Id>)
    requires forall e <- entries :: multiset(entries)[e] == 1
    ensures forall i, j :: 0 <= i < j < |entries| ==> entries[i] != entries[j]
  {
    forall i, j | 0 <= i < j < |entries| ensures entries[i] != entries[j] {
      assert entries == entries[..j] + entries[j..];
      assert multiset(entries) == multiset(entries[..j]) + multiset(entries[j..]);
      assert entries[i] == entries[..j][i] && entries[j] == entries[j..][0];
      assert entries[i] in entries[..j] && entries[j] in entries[j..];
      assert multiset(entries)[entries[i]] == 1;
      assert entries[i] !in entries[j..];
    }
  }

  /** After any calls a reorder succeeds exactly on the permutations of what waits. */
  lemma ReorderTakesPermutations(self: string, es: seq<Timed>, order: seq<Id>)
    ensures var s := Run(EMPTY, self, es).store;
            var (w, r) := Records.Reorder(s, order);
            && (r == Ok <==> multiset(order) == multiset(s.entries))
            && (r == Ok ==> w == s.(entries := order))
            && (r != Ok ==> w == s)
  {
    Reachable(self, es);
    var s := Run(EMPTY, self, es).store;
    if multiset(order) == multiset(s.entries) {
      assert forall e :: e in order <==> e in multiset(order);
      assert forall e :: e in s.entries <==> e in multiset(s.entries);
    }
  }

  /** The bytes add up: after any calls, every record counts exactly the offsets of its
  items, each at most its size, its total is the sum of the sizes, and the next 64-bit
  addition of a recorded advance cannot wrap. */
  lemma BytesAddUp(self: string, es: seq<Timed>, id: Id, index: nat, committed: nat)
    requires id in Run(EMPTY, self, es).store.records
    ensures var t := Run(EMPTY, self, es).store.records[id];
            && t.transferred == SumOffsets(t.items) <= SumSizes(t.items) == t.total < U64
            && (forall i | 0 <= i < |t.items| :: t.items[i].offset <= t.items[i].size)
            && (index < |t.items| && t.items[index].offset <= committed <= t.items[index].size ==>
                  t.transferred + (committed - t.items[index].offset) < U64)
  {
    Reachable(self, es);
    var t := Run(EMPTY, self, es).store.records[id];
    OffsetsWithinSizes(t.items);
    if index < |t.items| && t.items[index].offset <= committed <= t.items[index].size {
      ProgressedIsGood(t, index, committed, 0);
    }
  }

  /** Relayed bytes do not outlive their transfer: after any calls, a relay directory
  belongs to a relayed transfer that is not over. */
  lemma RelayDirsAreInFlight(self: string, es: seq<Timed>, id: Id)
    requires id in Run(EMPTY, self, es).relayDirs
    ensures var s := Run(EMPTY, self, es).store;
            id in s.records && s.records[id].direction.Relayed? && !s.records[id].state.Terminal()
  {
    Reachable(self, es);
  }

  /** Endings are stamped: after any calls, a record has an end time exactly when it is
  over, a completed one has every item completed, and history, while it holds a record,
  holds a finished one with its outcome, cause and end time. */
  lemma EndingsAreRecorded(self: string, es: seq<Timed>, id: Id)
    requires id in Run(EMPTY, self, es).store.records
    ensures var s := Run(EMPTY, self, es).store;
            var t := s.records[id];
            && (t.endedAt.Some? <==> t.state.Terminal())
            && (t.state.Completed? ==> AllCompleted(t.items))
            && (id in s.history ==>
                  && t.state.Terminal()
                  && Some(s.history[id].outcome) == OutcomeFor(t.state)
                  && s.history[id].cause == t.cause
                  && Some(s.history[id].endedAt) == t.endedAt)
  {
    Reachable(self, es);
    var s := Run(EMPTY, self, es).store;
    assert GoodRecord(s.records[id]);
  }

  // ------------------------------------------------- the guard of a start

  /** Starting takes the slot before it asks whether the transfer may run. Called on a
  transfer of a reachable service without the routes' check, it leaves the slot naming
  what is not running exactly when the slot was free (or this transfer's own) and the
  transfer is over or unknown. */
  lemma RawStartNeedsLive(v: Service, id: Id, now: int)
    requires Inv(v)
    ensures SlotOk(StartSpec(v, id, now).0.store)
            <==> (v.store.active.Some? || (id in v.store.records && !v.store.records[id].state.Terminal()))
  {
    hide CanTransition, Without, GoodRecord, RelayOk, HistoryOk;
    if v.store.active == Some(id) {
      TransitionShape(v.store.records[id].state, Running);
      WithoutKeeps(v.store.entries, id);
    } else if v.store.active.None? {
      if id in v.store.records {
        TransitionShape(v.store.records[id].state, Running);
      }
    }
  }

  const PROPOSAL := Declaration("phone", "tablet", [DeclaredItem(1, true, true)], false, true, Proceed, true)

  lemma ProposalIsQueued(id: Id)
    ensures var v := Step(EMPTY, "phone", At(0, Declare(id, PROPOSAL)));
            id in v.store.records && v.store.records[id].state.Queued? && v.store.active == None
  {
    var d := PROPOSAL;
    assert CheckItems(d.items, 0, false) == (1, Fine);
    assert NewItems(d.items) == [FileItem(1, 0, Queued)];
    assert SumSizes(NewItems(d.items)) == 1;
  }

  lemma CancelledIsOver(v: Service, id: Id)
    requires id in v.store.records && v.store.records[id].state.Queued? && v.store.active == None
    ensures var w := Step(v, "phone", At(1, Cancel(id)));
            id in w.store.records && w.store.records[id].state.Cancelled? && w.store.active == None
  {
    TransitionShape(Queued, Cancelled);
    hide CanTransition, Without, EntryFor;
  }

  lemma CancelledTakesSlot(v: Service, id: Id)
    requires id in v.store.records && v.store.records[id].state.Cancelled? && v.store.active == None
    ensures var w := StartSpec(v, id, 2).0;
            id in w.store.records && w.store.records[id].state.Cancelled? && w.store.active == Some(id)
  {
    TransitionShape(Cancelled, Running);
    hide CanTransition, Without;
  }

  /** A transfer that was declared and cancelled, and then started unchecked, holds the
  slot for good. */
  lemma RawStartOnCancelled(id: Id)
    ensures var v := Run(EMPTY, "phone", [At(0, Declare(id, PROPOSAL)), At(1, Cancel(id))]);
            var w := StartSpec(v, id, 2).0;
            && id in w.store.records && w.store.records[id].state.Cancelled? && w.store.active == Some(id)
  {
    var es := [At(0, Declare(id, PROPOSAL)), At(1, Cancel(id))];
    hide Step, StartSpec;
    var v1 := Step(EMPTY, "phone", es[0]);
    var v2 := Step(v1, "phone", es[1]);
    ProposalIsQueued(id);
    CancelledIsOver(v1, id);
    CancelledTakesSlot(v2, id);
    assert es[1..] == [es[1]] && es[1..][1..] == [];
    assert Run(EMPTY, "phone", es) == Run(v1, "phone", es[1..]) == Run(v2, "phone", es[1..][1..]) == v2;
  }

  // --------------------------------------- items that nobody verified

  function StateOf(v: Service, id: Id, index: nat): Option<State> {
    if id in v.store.records && index < |v.store.records[id].items|
    then Some(v.store.records[id].items[index].state) else None
  }

  /** An item that a commit put into place or staged, or that is marked as completed. */
  predicate Took(v: Service, id: Id, index: nat) {
    StateOf(v, id, index) == Some(Completed) || StateOf(v, id, index) == Some(Verifying)
  }

  /** A completed item of an incoming transfer was verified by a commit, or a download of
  it ran to its end: with no such download, a completed item was verified. */
  lemma CompletedWasVerifiedOrFetched(self: string, es: seq<Timed>, id: Id, i: nat)
    requires var s := Run(EMPTY, self, es).store;
             id in s.records && s.records[id].direction.Incoming? && i < |s.records[id].items|
             && s.records[id].items[i].state.Completed?
    ensures var v := Run(EMPTY, self, es); (id, i) in v.staged || (id, i) in v.collected
  {
    Reachable(self, es);
    var v := Run(EMPTY, self, es);
    assert StagedOk(id, v.store.records[id], v.staged, v.collected);
  }

  /** And the downloads do it: one that runs to the end completes an incoming item of any
  transfer, whatever was uploaded and whoever asks, and verifies nothing. */
  lemma DownloadCompletesUnverified(v: Service, id: Id, index: nat, got: Download, now: int)
    requires Inv(v) && id in v.store.records && index < |v.store.records[id].items|
    requires v.store.records[id].direction.Incoming? && got.offset <= v.store.records[id].items[index].size
    requires !v.store.records[id].items[index].state.Completed?
    ensures var w := DeliverSpec(v, id, index, got, now).0;
            && w.staged == v.staged
            && (StateOf(w, id, index) == Some(Completed)
                <==> !got.broken && got.offset + got.written >= v.store.records[id].items[index].size)
  {
    hide ProgressSpec, InterruptSpec, CompleteSpec, DeliverSpec, Inv;
    var till := got.offset + got.written;
    var v1 := ProgressSpec(v, id, index, till, now);
    ProgressKeeps(v, id, index, till, now);
    ProgressTouchesOffsets(v, id, index, till, now);
    PipedUnfolds(v, id, index, got, now);
    if got.broken {
      InterruptTouchesNoItem(v1, id, now);
    } else if till >= v.store.records[id].items[index].size {
      CollectedKeeps(v1, id, index);
      CompleteMarks(Collected(v1, id, index), id, index, now);
    }
  }

  lemma PipedUnfolds(v: Service, id: Id, index: nat, got: Download, now: int)
    requires id in v.store.records && index < |v.store.records[id].items|
    requires v.store.records[id].direction.Incoming? && got.offset <= v.store.records[id].items[index].size
    ensures var v1 := ProgressSpec(v, id, index, got.offset + got.written, now);
            DeliverSpec(v, id, index, got, now).0
            == if got.broken then InterruptSpec(v1, id, now)
               else if got.offset + got.written >= v.store.records[id].items[index].size
               then CompleteSpec(Collected(v1, id, index), id, index, now).0
               else v1
  {
    hide ProgressSpec, InterruptSpec, CompleteSpec;
  }

  lemma ProgressTouchesOffsets(v: Service, id: Id, index: nat, committed: nat, now: int)
    requires id in v.store.records
    ensures var w := ProgressSpec(v, id, index, committed, now);
            w.staged == v.staged && id in w.store.records && StateOf(w, id, index) == StateOf(v, id, index)
  {
  }

  lemma InterruptTouchesNoItem(v: Service, id: Id, now: int)
    requires id in v.store.records
    ensures InterruptSpec(v, id, now).staged == v.staged
    ensures forall i :: StateOf(InterruptSpec(v, id, now), id, i) == StateOf(v, id, i)
  {
    hide CanTransition;
  }

  lemma CompleteMarks(v: Service, id: Id, index: nat, now: int)
    requires Inv(v) && StateOf(v, id, index).Some?
    ensures var w := CompleteSpec(v, id, index, now).0;
            w.staged == v.staged && StateOf(w, id, index) == Some(Completed)
  {
    MarkedKeepsSum(v, id, index);
    CompleteUnfolds(v, id, index, now);
    hide CompleteSpec, Inv, Validates;
  }

  lemma MarkedKeepsSum(v: Service, id: Id, index: nat)
    requires Inv(v) && id in v.store.records && index < |v.store.records[id].items|
    ensures Validates(Marked(v.store.records[id], index, Completed))
  {
    var t := v.store.records[id];
    assert GoodRecord(t);
    SumsAfterUpdate(t.items, index, t.items[index].(state := Completed));
  }

  /** Nothing is received before acceptance, but neither completing nor downloading an
  item asks for it. An item that waits with its transfer can be committed exactly when
  its recorded offset is its size; and a download can complete it exactly when it is
  incoming, whatever its size. */
  lemma UnacceptedIsTakenExactlyWhen(v: Service, id: Id, index: nat, now: int)
    requires Inv(v) && id in v.store.records && v.store.records[id].state.AwaitingAcceptance?
    requires index < |v.store.records[id].items| && !v.store.records[id].direction.Outgoing? && !Took(v, id, index)
    ensures forall got :: ReceiveSpec(v, id, index, got, now) == (v, Awaiting)
    ensures (exists got :: Took(CommitItemSpec(v, id, index, got, now).0, id, index))
            <==> v.store.records[id].items[index].offset == v.store.records[id].items[index].size
    ensures (exists got :: Took(DeliverSpec(v, id, index, got, now).0, id, index))
            <==> v.store.records[id].direction.Incoming?
  {
    var t := v.store.records[id];
    if t.items[index].offset == t.items[index].size {
      WholeIsTaken(v, id, index, now);
      assert Took(CommitItemSpec(v, id, index, Placement(true, true, true, Placed), now).0, id, index);
    }
    UnacceptedDownloads(v, id, index, now);
  }

  lemma UnacceptedDownloads(v: Service, id: Id, index: nat, now: int)
    requires Inv(v) && id in v.store.records && !v.store.records[id].direction.Outgoing? && !Took(v, id, index)
    requires index < |v.store.records[id].items|
    ensures (exists got :: Took(DeliverSpec(v, id, index, got, now).0, id, index))
            <==> v.store.records[id].direction.Incoming?
  {
    var t := v.store.records[id];
    if t.direction.Incoming? {
      var whole := Download("", 0, t.items[index].size, false);
      DownloadCompletesUnverified(v, id, index, whole, now);
      assert Took(DeliverSpec(v, id, index, whole, now).0, id, index);
    } else {
      hide SetState, Put;
      assert forall got :: DeliverSpec(v, id, index, got, now).0 == v;
    }
  }

  lemma WholeIsTaken(v: Service, id: Id, index: nat, now: int)
    requires Inv(v) && id in v.store.records && v.store.records[id].state.AwaitingAcceptance?
    requires index < |v.store.records[id].items| && !v.store.records[id].direction.Outgoing? && !Took(v, id, index)
    requires v.store.records[id].items[index].offset == v.store.records[id].items[index].size
    ensures Took(CommitItemSpec(v, id, index, Placement(true, true, true, Placed), now).0, id, index)
  {
    var t := v.store.records[id];
    var got := Placement(true, true, true, Placed);
    var v1 := MakeDir(v, id, true);
    MarkedIsGood(t, index, Completed);
    MarkedIsGood(t, index, Verifying);
    CompleteUnfolds(Verified(v1, id, index), id, index, now);
    hide CompleteSpec, SlotOk, QueueOk, RecordsOk, HistoryOk, RelayOk, Validates;
    assert CommitItemSpec(v, id, index, got, now)
           == if t.direction.Relayed? then StageSpec(v1, id, index)
              else CompleteSpec(Verified(v1, id, index), id, index, now);
  }

  /** So of a transfer as it was declared, before anybody accepted it, exactly the empty
  files can be committed, and every file of an incoming one completed by a download. */
  lemma EmptyFilesNeedNoAcceptance(v: Service, self: string, id: Id, d: Declaration, index: nat, now: int, later: int)
    requires Inv(v) && Fresh(v, id)
    requires var w := DeclareSpec(v, self, id, d, now).0;
             && id in w.store.records && w.store.records[id].state.AwaitingAcceptance?
             && index < |w.store.records[id].items|
    ensures var w := DeclareSpec(v, self, id, d, now).0;
            && ((exists got :: Took(CommitItemSpec(w, id, index, got, later).0, id, index))
                <==> w.store.records[id].items[index].size == 0)
            && ((exists got :: Took(DeliverSpec(w, id, index, got, later).0, id, index))
                <==> w.store.records[id].direction.Incoming?)
  {
    var w := DeclareSpec(v, self, id, d, now).0;
    DeclareKeeps(v, self, id, d, now);
    NewItemsAreFresh(d.items);
    DeclaredRecord(v, self, id, d, now);
    hide Inv, DeclareSpec, NewItems, CommitItemSpec, DeliverSpec;
    UnacceptedIsTakenExactlyWhen(w, id, index, later);
  }

  lemma DeclaredRecord(v: Service, self: string, id: Id, d: Declaration, now: int)
    requires UsedOk(v) && Fresh(v, id) && id in DeclareSpec(v, self, id, d, now).0.store.records
    ensures var t := DeclareSpec(v, self, id, d, now).0.store.records[id];
            t.items == NewItems(d.items) && (t.state.AwaitingAcceptance? ==> !t.direction.Outgoing?)
  {
    hide CheckItems, NewItems, Validates;
  }
}
