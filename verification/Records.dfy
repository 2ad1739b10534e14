/**
The store: transfer records with their state machine, and the queue with its single
active slot. One transaction is one atomic step.

Each operation is a function on a snapshot of the store; the class at the end updates
the store in place and is proved to compute those functions.
*/
module Records {
  import opened Common

  type Id = string

  // -------------------------------------------------------- state machine

  datatype State = Queued | AwaitingAcceptance | Running | Verifying | Interrupted | Completed | Failed | Cancelled
  {
    predicate Terminal() {
      Completed? || Failed? || Cancelled?
    }

    /** The two states of a transfer that holds the active slot. */
    predicate Busy() {
      Running? || Verifying?
    }
  }

  const TRANSITIONS: map<State, seq<State>> := map[
    Queued := [AwaitingAcceptance, Running, Failed, Cancelled],
    AwaitingAcceptance := [Queued, Running, Failed, Cancelled],
    Running := [Verifying, Interrupted, Failed, Cancelled],
    Verifying := [Completed, Interrupted, Failed, Cancelled],
    Interrupted := [Running, Queued, Failed, Cancelled],
    Completed := [],
    Failed := [],
    Cancelled := []]

  predicate CanTransition(from: State, to: State) {
    from in TRANSITIONS && to in TRANSITIONS[from]
  }

  /** The shape of the table: nothing leaves a terminal state, every live state may
  fail or be cancelled, completion goes through verifying and that through running. */
  lemma TransitionShape(from: State, to: State)
    ensures from.Terminal() ==> !CanTransition(from, to)
    ensures !from.Terminal() && (to.Failed? || to.Cancelled?) ==> CanTransition(from, to)
    ensures to.Completed? ==> (CanTransition(from, to) <==> from.Verifying?)
    ensures to.Verifying? ==> (CanTransition(from, to) <==> from.Running?)
    ensures to.Running? ==> (CanTransition(from, to) <==> from.Queued? || from.AwaitingAcceptance? || from.Interrupted?)
    ensures to.Interrupted? ==> (CanTransition(from, to) <==> from.Busy())
  {
  }

  // --------------------------------------------------------------- records

  datatype Direction = Outgoing | Incoming | Relayed

  datatype Cause = NoCause | ChecksumMismatch | Declined | AcceptanceTimeout | SourceUnreadable
                 | DestinationFull | DestinationUnwritable | Abandoned

  datatype FileItem = FileItem(size: nat, offset: nat, state: State)

  datatype Transfer = Transfer(direction: Direction, source: string, target: string, items: seq<FileItem>,
                               total: nat, transferred: nat, state: State, cause: Cause, queuedAt: int,
                               startedAt: Option<int>, endedAt: Option<int>, progressAt: Option<int>)

  datatype Outcome = WasCompleted | WasFailed | WasCancelled

  datatype HistoryEntry = HistoryEntry(direction: Direction, peer: string, itemCount: nat, total: nat,
                                       outcome: Outcome, cause: Cause, endedAt: int)

  function SumSizes(items: seq<FileItem>): nat {
    if items == [] then 0 else items[0].size + SumSizes(items[1..])
  }

  function SumOffsets(items: seq<FileItem>): nat {
    if items == [] then 0 else items[0].offset + SumOffsets(items[1..])
  }

  /** What a record must satisfy to be stored; the sum of sizes wraps at 64 bits. */
  predicate Validates(t: Transfer) {
    && |t.items| > 0
    && t.source != "" && t.target != "" && t.source != t.target
    && t.total == SumSizes(t.items) % U64
  }

  predicate AllCompleted(items: seq<FileItem>) {
    forall i | 0 <= i < |items| :: items[i].state.Completed?
  }

  function OutcomeFor(s: State): Option<Outcome> {
    match s
    case Completed => Some(WasCompleted)
    case Failed => Some(WasFailed)
    case Cancelled => Some(WasCancelled)
    case _ => None
  }

  function EntryFor(t: Transfer, now: int): Option<HistoryEntry> {
    if OutcomeFor(t.state).None? then None
    else Some(HistoryEntry(t.direction, if t.direction.Incoming? then t.source else t.target, |t.items|, t.total,
                           OutcomeFor(t.state).value, t.cause, if t.endedAt.Some? then t.endedAt.value else now))
  }

  // -------------------------------------------------------------- snapshots

  datatype Snapshot = Snapshot(records: map<Id, Transfer>, entries: seq<Id>, active: Option<Id>,
                               history: map<Id, HistoryEntry>)

  datatype Result =
    Ok | ErrNotFound | ErrIllegal | ErrRange | ErrBackwards | ErrBeyond | ErrBusy | ErrOrder | ErrInvalid

  function Put(s: Snapshot, id: Id, t: Transfer): (Snapshot, Result) {
    if !Validates(t) then (s, ErrInvalid) else (s.(records := s.records[id := t]), Ok)
  }

  /** A record moved to another state, with the stamps that go with it. */
  function Moved(t: Transfer, to: State, cause: Cause, now: int): Transfer {
    t.(state := to,
       startedAt := if to.Running? && t.startedAt.None? then Some(now) else t.startedAt,
       endedAt := if to.Terminal() then Some(now) else t.endedAt,
       cause := if to.Failed? then cause else t.cause)
  }

  function SetState(s: Snapshot, id: Id, to: State, cause: Cause, now: int): (Snapshot, Result) {
    if id !in s.records then (s, ErrNotFound)
    else if s.records[id].state == to then (s, Ok)
    else if !CanTransition(s.records[id].state, to) then (s, ErrIllegal)
    else (s.(records := s.records[id := Moved(s.records[id], to, cause, now)]), Ok)
  }

  /** A record whose item reached an offset; the byte count is a 64-bit sum. */
  function Progressed(t: Transfer, index: nat, committed: nat, now: int): Transfer
    requires index < |t.items| && t.items[index].offset <= committed
  {
    t.(items := t.items[index := t.items[index].(offset := committed)],
       transferred := (t.transferred + (committed - t.items[index].offset)) % U64,
       progressAt := Some(now))
  }

  function Advance(s: Snapshot, id: Id, index: int, committed: nat, now: int): (Snapshot, Result) {
    if id !in s.records then (s, ErrNotFound)
    else
      var t := s.records[id];
      if index < 0 || index >= |t.items| then (s, ErrRange)
      else if committed < t.items[index].offset then (s, ErrBackwards)
      else if committed > t.items[index].size then (s, ErrBeyond)
      else (s.(records := s.records[id := Progressed(t, index, committed, now)]), Ok)
  }

  /** The waiting list without one transfer. */
  function Without(entries: seq<Id>, id: Id): seq<Id> {
    if entries == [] then []
    else (if entries[0] == id then [] else [entries[0]]) + Without(entries[1..], id)
  }

  function Enqueue(s: Snapshot, id: Id): Snapshot {
    if id in s.entries then s else s.(entries := s.entries + [id])
  }

  function Activate(s: Snapshot, id: Id): (Snapshot, Result) {
    if s.active.Some? && s.active.value != id then (s, ErrBusy)
    else (s.(entries := Without(s.entries, id), active := Some(id)), Ok)
  }

  function Deactivate(s: Snapshot, id: Id, requeue: bool): Snapshot {
    if s.active != Some(id) then s
    else s.(active := None, entries := if requeue then s.entries + [id] else s.entries)
  }

  function Reorder(s: Snapshot, order: seq<Id>): (Snapshot, Result) {
    if multiset(order) == multiset(s.entries) && (s.active.Some? ==> s.active.value !in order)
    then (s.(entries := order), Ok) else (s, ErrOrder)
  }

  function Dequeue(s: Snapshot, id: Id): Snapshot {
    s.(entries := Without(s.entries, id))
  }

  function RecordHistory(s: Snapshot, id: Id, now: int): Snapshot {
    if id !in s.records then s
    else
      var e := EntryFor(s.records[id], now);
      if e.None? then s else s.(history := s.history[id := e.value])
  }

  function Delete(s: Snapshot, id: Id): Snapshot {
    s.(records := s.records - {id})
  }

  function ClearHistory(s: Snapshot): Snapshot {
    s.(history := map[])
  }

  // ------------------------------------------------------------- the class

  class Store {
    var records: map<Id, Transfer>
    var entries: seq<Id>
    var active: Option<Id>
    var history: map<Id, HistoryEntry>

    constructor ()
      ensures View() == Snapshot(map[], [], None, map[])
    {
      records, entries, active, history := map[], [], None, map[];
    }

    ghost function View(): Snapshot
      reads this
    {
      Snapshot(records, entries, active, history)
    }

    method PutTransfer(id: Id, t: Transfer) returns (r: Result)
      modifies this`records
      ensures (View(), r) == Put(old(View()), id, t)
    {
      if !Validates(t) {
        return ErrInvalid;
      }
      records := records[id := t];
      return Ok;
    }

    method SetTransferState(id: Id, to: State, cause: Cause, now: int) returns (r: Result)
      modifies this`records
      ensures (View(), r) == SetState(old(View()), id, to, cause, now)
    {
      hide CanTransition;
      if id !in records {
        return ErrNotFound;
      }
      var t := records[id];
      if t.state == to {
        return Ok;
      }
      if !CanTransition(t.state, to) {
        return ErrIllegal;
      }
      t := t.(state := to);
      if to == Running && t.startedAt == None {
        t := t.(startedAt := Some(now));
      } else if to.Terminal() {
        t := t.(endedAt := Some(now));
      }
      if to == Failed {
        t := t.(cause := cause);
      }
      records := records[id := t];
      return Ok;
    }

    method AdvanceItem(id: Id, index: int, committed: nat, now: int) returns (r: Result)
      modifies this`records
      ensures (View(), r) == Advance(old(View()), id, index, committed, now)
    {
      if id !in records {
        return ErrNotFound;
      }
      var t := records[id];
      if index < 0 || index >= |t.items| {
        return ErrRange;
      }
      var item := t.items[index];
      if committed < item.offset {
        return ErrBackwards;
      }
      if committed > item.size {
        return ErrBeyond;
      }
      var delta := committed - item.offset;
      t := t.(items := t.items[index := item.(offset := committed)], transferred := (t.transferred + delta) % U64);
      t := t.(progressAt := Some(now));
      records := records[id := t];
      return Ok;
    }

    method EnqueueTransfer(id: Id)
      modifies this`entries
      ensures View() == Enqueue(old(View()), id)
    {
      for i := 0 to |entries|
        invariant id !in entries[..i] && entries == old(entries)
      {
        if entries[i] == id {
          return;
        }
      }
      entries := entries + [id];
    }

    /** The filtering loop shared by activation and removal. */
    method Filter(id: Id) returns (out: seq<Id>)
      ensures out == Without(entries, id)
    {
      out := [];
      for i := 0 to |entries|
        invariant out + Without(entries[i..], id) == Without(entries, id)
      {
        assert entries[i..][1..] == entries[i + 1..];
        ghost var rest := Without(entries[i + 1..], id);
        if entries[i] != id {
          assert out + ([entries[i]] + rest) == (out + [entries[i]]) + rest;
          out := out + [entries[i]];
        } else {
          assert out + ([] + rest) == out + rest;
        }
      }
      assert out + [] == out;
    }

    method ActivateTransfer(id: Id) returns (r: Result)
      modifies this`entries, this`active
      ensures (View(), r) == Activate(old(View()), id)
    {
      if active.Some? && active.value != id {
        return ErrBusy;
      }
      entries := Filter(id);
      active := Some(id);
      return Ok;
    }

    method DeactivateTransfer(id: Id, requeue: bool)
      modifies this`entries, this`active
      ensures View() == Deactivate(old(View()), id, requeue)
    {
      if active != Some(id) {
        return;
      }
      active := None;
      if requeue {
        entries := entries + [id];
      }
    }

    /** Counts what waits, then spends one count per name of the new order: the order
    is taken exactly when it is a permutation that leaves the active transfer out. */
    method ReorderQueue(order: seq<Id>) returns (r: Result)
      modifies this`entries
      ensures (View(), r) == Reorder(old(View()), order)
    {
      hide Spent;
      if |order| != |entries| {
        assert |multiset(order)| == |order| && |multiset(entries)| == |entries|;
        return ErrOrder;
      }
      var want := CountEach(entries);
      assert order[..0] == [];
      for i := 0 to |order|
        invariant Spent(want, order[..i], entries)
        invariant active.Some? ==> active.value !in order[..i]
        invariant entries == old(entries)
      {
        SpendOne(want, order, i, entries);
        if active == Some(order[i]) || Count(want, order[i]) == 0 {
          return ErrOrder;
        }
        want := want[order[i] := want[order[i]] - 1];
      }
      assert order[..|order|] == order;
      AllSpent(want, order, entries);
      entries := order;
      return Ok;
    }

    method DequeueTransfer(id: Id)
      modifies this`entries
      ensures View() == Dequeue(old(View()), id)
    {
      entries := Filter(id);
    }

    method Remember(id: Id, now: int)
      modifies this`history
      ensures View() == RecordHistory(old(View()), id, now)
    {
      if id in records {
        var e := EntryFor(records[id], now);
        if e.Some? {
          history := history[id := e.value];
        }
      }
    }

    method EraseHistory()
      modifies this`history
      ensures View() == ClearHistory(old(View()))
    {
      history := map[];
    }

    method DeleteTransfer(id: Id)
      modifies this`records
      ensures View() == Delete(old(View()), id)
    {
      records := records - {id};
    }
  }

  method CountEach(entries: seq<Id>) returns (want: map<Id, nat>)
    ensures Spent(want, [], entries)
  {
    want := map[];
    for i := 0 to |entries|
      invariant forall e :: Count(want, e) == multiset(entries[..i])[e]
    {
      assert entries[..i + 1] == entries[..i] + [entries[i]];
      want := want[entries[i] := Count(want, entries[i]) + 1];
    }
    assert entries[..|entries|] == entries;
  }

  function Count(want: map<Id, nat>, e: Id): nat {
    if e in want then want[e] else 0
  }

  /** The counts of what waits, less one for every name of the order so far. */
  ghost predicate Spent(want: map<Id, nat>, sofar: seq<Id>, entries: seq<Id>) {
    forall e :: Count(want, e) + multiset(sofar)[e] == multiset(entries)[e]
  }

  lemma SpendOne(want: map<Id, nat>, order: seq<Id>, i: nat, entries: seq<Id>)
    requires i < |order| && Spent(want, order[..i], entries)
    ensures order[..i + 1] == order[..i] + [order[i]]
    ensures if Count(want, order[i]) == 0 then multiset(order) != multiset(entries)
            else Spent(want[order[i] := want[order[i]] - 1], order[..i + 1], entries)
  {
    assert order[..i + 1] == order[..i] + [order[i]];
    assert order == order[..i + 1] + order[i + 1..];
    if Count(want, order[i]) == 0 {
      assert multiset(order)[order[i]] > multiset(entries)[order[i]];
    }
  }

  lemma AllSpent(want: map<Id, nat>, order: seq<Id>, entries: seq<Id>)
    requires Spent(want, order, entries) && |order| == |entries|
    ensures multiset(order) == multiset(entries)
  {
    var a, b := multiset(order), multiset(entries);
    assert a <= b && |a| == |b|;
    assert b == a + (b - a);
    assert |b - a| == 0;
  }
}
