/**
The transfer service: every call as one atomic step over the store, the relay
directories and what was staged and streamed of relayed items.

The functions say what a call does; the class runs the calls against a `Store` object
and is proved to compute them.
*/
module Service {
  import opened Common
  import opened Records

  /** Bytes `from` to `till` of a relayed item, sent to a device. */
  datatype Stretch = Stretch(id: Id, index: nat, from: nat, till: nat, device: string)

  /** The last four fields are the model's memory: the identifiers ever given out, the
  items that a commit verified here, the items of which a download ran to the end, and
  what downloads of relayed items streamed, and to whom. */
  datatype Service = Service(store: Snapshot, relayDirs: set<Id>, used: set<Id>, staged: set<(Id, nat)>,
                             collected: set<(Id, nat)>, streamed: set<Stretch>)

  datatype Reply = Fine | Invalid | NoSpace | BadPath | Unauthorized | Downgrade | QueueBusy | Internal | NotFound
                 | Awaiting | AwaitingRelay | TimedOut | WasDeclined | OffsetMismatch | Mismatched | NotWhole

  // ------------------------------------------------------------- declaring

  datatype DeclaredItem = DeclaredItem(size: nat, named: bool, placeable: bool)

  datatype Decision = Refuse | Ask | Proceed

  /** A proposal, with what the checks that consult other state will say. */
  datatype Declaration = Declaration(source: string, target: string, items: seq<DeclaredItem>, downgrades: bool,
                                     fits: bool, sender: Decision, targetPaired: bool)

  /** The running total of the declared sizes, or the first reason to refuse. */
  function CheckItems(items: seq<DeclaredItem>, total: nat, incoming: bool): (nat, Reply)
    decreases |items|
  {
    if items == [] then (total, Fine)
    else if !items[0].named then (total, Invalid)
    else if total > U64 - 1 - items[0].size then (total, NoSpace)
    else if incoming && !items[0].placeable then (total, BadPath)
    else CheckItems(items[1..], total + items[0].size, incoming)
  }

  function NewItems(items: seq<DeclaredItem>): seq<FileItem> {
    if items == [] then [] else [FileItem(items[0].size, 0, Queued)] + NewItems(items[1..])
  }

  function DirectionOf(self: string, d: Declaration): Direction {
    if self != "" && d.target == self then Incoming
    else if self != "" && d.source != self then Relayed
    else Outgoing
  }

  function DeclareSpec(v: Service, self: string, id: Id, d: Declaration, now: int): (Service, Reply) {
    var direction := DirectionOf(self, d);
    var (total, checked) := CheckItems(d.items, 0, direction.Incoming?);
    if |d.items| == 0 || d.target == "" || d.target == d.source then (v, Invalid)
    else if d.downgrades then (v, Downgrade)
    else if checked != Fine then (v, checked)
    else if !d.fits then (v, NoSpace)
    else if !direction.Outgoing? && d.sender.Refuse? then (v, Unauthorized)
    else if direction.Relayed? && !d.targetPaired then (v, Unauthorized)
    else
      var state := if !direction.Outgoing? && d.sender.Ask? then AwaitingAcceptance else Queued;
      var t := Transfer(direction, d.source, d.target, NewItems(d.items), total, 0, state, NoCause, now,
                        None, None, None);
      var (s, r) := Put(v.store, id, t);
      if r != Ok then (v, Internal) else (v.(store := Enqueue(s, id), used := v.used + {id}), Fine)
  }

  // -------------------------------------------------- moving and ending one

  function StartSpec(v: Service, id: Id, now: int): (Service, Reply) {
    var (a, busy) := Activate(v.store, id);
    if busy != Ok then (v, QueueBusy)
    else
      var (s, r) := SetState(a, id, Running, NoCause, now);
      (v.(store := s), if r == Ok then Fine else Internal)
  }

  /** What the content routes do first: start a transfer that waits. */
  function StartIfWaiting(v: Service, id: Id, now: int): (Service, Reply) {
    if id in v.store.records && (v.store.records[id].state.Queued? || v.store.records[id].state.Interrupted?)
    then StartSpec(v, id, now) else (v, Fine)
  }

  function ProgressSpec(v: Service, id: Id, index: int, committed: nat, now: int): Service {
    v.(store := Advance(v.store, id, index, committed, now).0)
  }

  function InterruptSpec(v: Service, id: Id, now: int): Service {
    v.(store := Deactivate(SetState(v.store, id, Interrupted, NoCause, now).0, id, true))
  }

  function DropDir(v: Service, id: Id): Service {
    if id in v.store.records && v.store.records[id].direction.Relayed? then v.(relayDirs := v.relayDirs - {id}) else v
  }

  /** Leaving the slot and writing history, which every ending does. */
  function Settle(v: Service, id: Id, now: int): Service {
    DropDir(v.(store := RecordHistory(Deactivate(v.store, id, false), id, now)), id)
  }

  function FailSpec(v: Service, id: Id, cause: Cause, now: int): Service {
    Settle(v.(store := SetState(v.store, id, Failed, cause, now).0), id, now)
  }

  function CompleteSpec(v: Service, id: Id, index: int, now: int): (Service, Reply) {
    if id !in v.store.records then (v, NotFound)
    else
      var t := v.store.records[id];
      if index < 0 || index >= |t.items| then (v, Invalid)
      else
        var done := t.(items := t.items[index := t.items[index].(state := Completed)]);
        var (s, put) := Put(v.store, id, done);
        if put != Ok then (v, Internal)
        else if !AllCompleted(done.items) then (v.(store := s), Fine)
        else
          var (s1, r1) := SetState(s, id, Verifying, NoCause, now);
          if r1 != Ok then (v.(store := s), Internal)
          else
            var (s2, r2) := SetState(s1, id, Completed, NoCause, now);
            if r2 != Ok then (v.(store := s1), Internal)
            else (Settle(v.(store := s2), id, now), Fine)
  }

  function CancelSpec(v: Service, id: Id, now: int): (Service, Reply) {
    if id !in v.store.records then (v, NotFound)
    else if v.store.records[id].state.Terminal() then (v, Fine)
    else
      var (s, r) := SetState(v.store, id, Cancelled, NoCause, now);
      if r != Ok then (DropDir(v, id), Internal)
      else (Settle(v.(store := Dequeue(s, id)), id, now), Fine)
  }

  /** Two minutes, in nanoseconds. */
  const ACCEPTANCE_WINDOW: int := 120_000_000_000

  predicate AcceptanceExpired(t: Transfer, now: int) {
    now - t.queuedAt >= ACCEPTANCE_WINDOW
  }

  function AcceptSpec(v: Service, id: Id, now: int): (Service, Reply) {
    if id !in v.store.records then (v, NotFound)
    else
      var t := v.store.records[id];
      if t.state.Terminal() then
        (v, match t.cause case AcceptanceTimeout => TimedOut case Declined => WasDeclined case _ => NotFound)
      else if !t.state.AwaitingAcceptance? then (v, Fine)
      else if AcceptanceExpired(t, now) then (FailSpec(v, id, AcceptanceTimeout, now), TimedOut)
      else
        var (s, r) := SetState(v.store, id, Queued, NoCause, now);
        (v.(store := s), if r == Ok then Fine else Internal)
  }

  function DeclineSpec(v: Service, id: Id, now: int): (Service, Reply) {
    if id !in v.store.records then (v, NotFound)
    else if v.store.records[id].state.Terminal() then (v, Fine)
    else (FailSpec(v, id, Declined, now), Fine)
  }

  /** Erases the history. */
  function ClearSpec(v: Service): Service {
    v.(store := ClearHistory(v.store))
  }

  // ------------------------------------------------------------- receiving

  datatype Fault = NoFault | WrongOffset | Full | Unwritable | Broken

  /** What staging did for one chunk: whether the directory was made and the sink
  opened, the offset that is durable afterwards, and what stopped the copy. */
  datatype Reception = Reception(dirMade: bool, opens: bool, committed: nat, fault: Fault)

  function MakeDir(v: Service, id: Id, made: bool): Service {
    if made && id in v.store.records && v.store.records[id].direction.Relayed?
    then v.(relayDirs := v.relayDirs + {id}) else v
  }

  /** What a receive call does with a chunk once its transfer runs. */
  function TakeChunk(v: Service, id: Id, index: int, stored: nat, got: Reception, now: int): (Service, Reply) {
    var v1 := MakeDir(v, id, got.dirMade);
    if !got.opens then (v1, Internal)
    else
      var v2 := if got.committed > stored then ProgressSpec(v1, id, index, got.committed, now) else v1;
      match got.fault
      case NoFault => (v2, Fine)
      case WrongOffset => (v2, OffsetMismatch)
      case Full => (FailSpec(v2, id, DestinationFull, now), NoSpace)
      case Unwritable => (FailSpec(v2, id, DestinationUnwritable, now), Internal)
      case Broken => (InterruptSpec(v2, id, now), Internal)
  }

  function ReceiveSpec(v: Service, id: Id, index: int, got: Reception, now: int): (Service, Reply) {
    if id !in v.store.records then (v, NotFound)
    else
      var t := v.store.records[id];
      if t.direction.Outgoing? || index < 0 || index >= |t.items| then (v, Invalid)
      else if t.state.Terminal() then (v, NotFound)
      else if t.state.AwaitingAcceptance? then (v, Awaiting)
      else
        var (v1, started) := StartIfWaiting(v, id, now);
        if started != Fine then (v1, started)
        else TakeChunk(v1, id, index, t.items[index].offset, got, now)
  }

  datatype Verdict = Placed | BadDigest | BadPlace

  /** What verification and placement did: the directory, the sink, whether a name was
  found in the receive folder, and the outcome of the commit. */
  datatype Placement = Placement(dirMade: bool, opens: bool, resolves: bool, verdict: Verdict)

  function StageSpec(v: Service, id: Id, index: nat): (Service, Reply)
    requires id in v.store.records && index < |v.store.records[id].items|
  {
    var t := v.store.records[id];
    var (s, r) := Put(v.store, id, t.(items := t.items[index := t.items[index].(state := Verifying)]));
    if r != Ok then (v, Internal) else (Verified(v, id, index).(store := s), Fine)
  }

  function Verified(v: Service, id: Id, index: nat): Service {
    v.(staged := v.staged + {(id, index)})
  }

  /** What a commit does with an item that is whole. */
  function TakeItem(v: Service, id: Id, index: nat, got: Placement, now: int): (Service, Reply)
    requires id in v.store.records && index < |v.store.records[id].items|
  {
    var relayed := v.store.records[id].direction.Relayed?;
    var v1 := MakeDir(v, id, got.dirMade);
    if !got.opens then (v1, Internal)
    else if !relayed && !got.resolves then (FailSpec(v1, id, SourceUnreadable, now), BadPath)
    else match got.verdict
      case BadDigest => (FailSpec(v1, id, ChecksumMismatch, now), Mismatched)
      case BadPlace => (FailSpec(v1, id, DestinationFull, now), Internal)
      case Placed => if relayed then StageSpec(v1, id, index) else CompleteSpec(Verified(v1, id, index), id, index, now)
  }

  function CommitItemSpec(v: Service, id: Id, index: int, got: Placement, now: int): (Service, Reply) {
    if id !in v.store.records then (v, NotFound)
    else
      var t := v.store.records[id];
      if index < 0 || index >= |t.items| || t.direction.Outgoing? then (v, Invalid)
      else if t.items[index].state.Completed? then (v, Fine)
      else if t.state.Terminal() then (v, NotFound)
      else if t.items[index].offset != t.items[index].size then (v, NotWhole)
      else TakeItem(v, id, index, got, now)
  }

  /** The end of a download: `written` bytes from `offset` on were streamed. */
  datatype Download = Download(device: string, offset: nat, written: nat, broken: bool)

  /** What a download adds to what was streamed of an item. */
  function Streamed(v: Service, id: Id, index: nat, got: Download, size: nat): Service {
    v.(streamed := v.streamed + {Stretch(id, index, got.offset, Min(got.offset + got.written, size), got.device)})
  }

  function Collected(v: Service, id: Id, index: nat): Service {
    v.(collected := v.collected + {(id, index)})
  }

  /** The downward half of a relay. */
  function DeliverRelayed(v: Service, id: Id, index: nat, got: Download, now: int): (Service, Reply)
    requires id in v.store.records && index < |v.store.records[id].items|
  {
    var t := v.store.records[id];
    if got.device != t.target then (v, NotFound)
    else if !t.items[index].state.Verifying? && !t.items[index].state.Completed? then (v, AwaitingRelay)
    else
      var v1 := Streamed(v, id, index, got, t.items[index].size);
      if got.broken then (InterruptSpec(v1, id, now), Fine)
      else if got.offset + got.written < t.items[index].size then (v1, Fine)
      else CompleteSpec(Collected(v1, id, index), id, index, now)
  }

  /** The end of a copy between two browsers. */
  function DeliverPiped(v: Service, id: Id, index: nat, got: Download, now: int): (Service, Reply)
    requires id in v.store.records && index < |v.store.records[id].items|
  {
    var v1 := ProgressSpec(v, id, index, got.offset + got.written, now);
    if got.broken then (InterruptSpec(v1, id, now), Fine)
    else if got.offset + got.written >= v.store.records[id].items[index].size
    then CompleteSpec(Collected(v1, id, index), id, index, now)
    else (v1, Fine)
  }

  function DeliverSpec(v: Service, id: Id, index: int, got: Download, now: int): (Service, Reply) {
    if id !in v.store.records then (v, NotFound)
    else
      var t := v.store.records[id];
      if index < 0 || index >= |t.items| || got.offset > t.items[index].size then (v, Invalid)
      else if t.direction.Relayed? then DeliverRelayed(v, id, index, got, now)
      else DeliverPiped(v, id, index, got, now)
  }

  // ------------------------------------------- loops over all the transfers

  predicate Overdue(t: Transfer, now: int) {
    t.state.AwaitingAcceptance? && AcceptanceExpired(t, now)
  }

  /** Fails what nobody accepted in time; `ids` enumerates the records. */
  function ExpireSpec(v: Service, ids: seq<Id>, now: int): Service
    decreases |ids|
  {
    if ids == [] then v
    else
      var next := if ids[0] in v.store.records && Overdue(v.store.records[ids[0]], now)
                  then FailSpec(v, ids[0], AcceptanceTimeout, now) else v;
      ExpireSpec(next, ids[1..], now)
  }

  /** Repairs what a crash left running; `ids` enumerates the records. */
  function RecoverSpec(v: Service, ids: seq<Id>, now: int): Service
    decreases |ids|
  {
    if ids == [] then v
    else
      var next := if ids[0] in v.store.records && v.store.records[ids[0]].state.Busy()
                  then InterruptSpec(v, ids[0], now) else v;
      RecoverSpec(next, ids[1..], now)
  }

  /** Seven days, in nanoseconds. */
  const PARTIAL_RETENTION: nat := 7 * 24 * 3600 * 1_000_000_000

  /** The latest of the moments at which anything happened to a transfer. */
  function LastTouched(t: Transfer): int {
    var started := if t.startedAt.Some? && t.startedAt.value > t.queuedAt then t.startedAt.value else t.queuedAt;
    if t.progressAt.Some? && t.progressAt.value > started then t.progressAt.value else started
  }

  predicate Abandonable(t: Transfer, now: int) {
    !t.state.Terminal() && now - LastTouched(t) >= PARTIAL_RETENTION
  }

  function SweepOne(s: Snapshot, id: Id, now: int): Snapshot {
    Delete(Deactivate(Dequeue(RecordHistory(SetState(s, id, Failed, Abandoned, now).0, id, now), id), id, false), id)
  }

  function SweepRecords(s: Snapshot, ids: seq<Id>, now: int): Snapshot
    decreases |ids|
  {
    if ids == [] then s
    else
      var next := if ids[0] in s.records && Abandonable(s.records[ids[0]], now) then SweepOne(s, ids[0], now) else s;
      SweepRecords(next, ids[1..], now)
  }

  /** The relay directories that still belong to a transfer in flight. */
  function LiveDirs(v: Service): set<Id> {
    set id | id in v.relayDirs && id in v.store.records && !v.store.records[id].state.Terminal()
  }

  function SweepSpec(v: Service, ids: seq<Id>, now: int): Service {
    var v1 := v.(store := SweepRecords(v.store, ids, now));
    v1.(relayDirs := LiveDirs(v1))
  }
}
