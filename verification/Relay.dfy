/** Relayed items: staged here, collected by their target, and only then complete. */
module Relay {
  import opened Common
  import opened Records
  import opened Service
  import opened Lifecycle
  import opened ServiceRuns
  import opened Endings

  // ------------------------------------ who touches the relay's memory

  /** Only downloads touch what was collected and streamed. */
  ghost predicate SameHands(v: Service, w: Service) {
    w.collected == v.collected && w.streamed == v.streamed
  }

  lemma {:induction false} ExpireHands(v: Service, ids: seq<Id>, now: int)
    ensures SameHands(v, ExpireSpec(v, ids, now))
    decreases |ids|
  {
    hide SetState;
    if ids != [] {
      var next := if ids[0] in v.store.records && Overdue(v.store.records[ids[0]], now)
                  then FailSpec(v, ids[0], AcceptanceTimeout, now) else v;
      ExpireHands(next, ids[1..], now);
    }
  }

  lemma {:induction false} RecoverHands(v: Service, ids: seq<Id>, now: int)
    ensures SameHands(v, RecoverSpec(v, ids, now))
    decreases |ids|
  {
    hide SetState;
    if ids != [] {
      var next := if ids[0] in v.store.records && v.store.records[ids[0]].state.Busy()
                  then InterruptSpec(v, ids[0], now) else v;
      RecoverHands(next, ids[1..], now);
    }
  }

  lemma CommitItemHands(v: Service, id: Id, index: int, got: Placement, now: int)
    ensures SameHands(v, CommitItemSpec(v, id, index, got, now).0)
  {
  }

  lemma ReceiveHands(v: Service, id: Id, index: int, got: Reception, now: int)
    ensures SameHands(v, ReceiveSpec(v, id, index, got, now).0)
  {
    hide SetState, Advance, Without;
  }

  lemma CallHands(v: Service, self: string, e: Timed)
    requires !e.call.Deliver?
    ensures SameHands(v, Step(v, self, e))
  {
    hide SetState, Put, Advance, Without, CheckItems, NewItems, ExpireSpec, RecoverSpec, SweepRecords, ReceiveSpec,
         CommitItemSpec, LiveDirs;
    match e.call
    case Expire(ids) => ExpireHands(v, ids, e.now);
    case Recover(ids) => RecoverHands(v, ids, e.now);
    case CommitItem(id, index, got) => CommitItemHands(v, id, index, got, e.now);
    case Receive(id, index, got) => ReceiveHands(v, id, index, got, e.now);
    case _ =>
  }

  // ------------------------------------------------- what the target was sent

  ghost predicate ByteStreamed(streamed: set<Stretch>, id: Id, index: nat, k: nat) {
    exists s <- streamed :: s.id == id && s.index == index && s.from <= k < s.till
  }

  /** The first `n` bytes of an item were streamed to its target, in whatever pieces. */
  ghost predicate PrefixStreamed(streamed: set<Stretch>, id: Id, index: nat, n: nat) {
    forall k: nat :: k < n ==> ByteStreamed(streamed, id, index, k)
  }

  ghost predicate LastStreamed(streamed: set<Stretch>, id: Id, index: nat, size: nat) {
    size == 0 || ByteStreamed(streamed, id, index, size - 1)
  }

  /** The target has an item of `size` bytes: its last byte, or all of them. */
  ghost predicate Has(streamed: set<Stretch>, id: Id, index: nat, size: nat, whole: bool) {
    if whole then PrefixStreamed(streamed, id, index, size) else LastStreamed(streamed, id, index, size)
  }

  /** Of a download of this item: that it starts before the end, if the item has any
  bytes; or that it starts no later than the downloads before it, taken together, got
  to. Nothing is asked of other events. */
  ghost predicate StartsWell(v: Service, e: Timed, id: Id, i: nat, whole: bool) {
    e.call.Deliver? && e.call.id == id && e.call.index == i
    && id in v.store.records && i < |v.store.records[id].items| ==>
      var size := v.store.records[id].items[i].size;
      var offset := e.call.download.offset;
      if whole then PrefixStreamed(v.streamed, id, i, offset) else size == 0 || offset < size
  }

  ghost predicate AllStartWell(v: Service, self: string, es: seq<Timed>, id: Id, i: nat, whole: bool)
    decreases |es|
  {
    es == [] || (StartsWell(v, es[0], id, i, whole) && AllStartWell(Step(v, self, es[0]), self, es[1..], id, i, whole))
  }

  /** A relayed item whose download ran to the end has reached its target. */
  ghost predicate Received(v: Service, id: Id, i: nat, whole: bool) {
    id in v.store.records && v.store.records[id].direction.Relayed? && i < |v.store.records[id].items|
    && (id, i) in v.collected ==>
      Has(v.streamed, id, i, v.store.records[id].items[i].size, whole)
  }

  lemma MoreIsStreamed(a: set<Stretch>, b: set<Stretch>, id: Id, index: nat, size: nat, whole: bool)
    requires a <= b && Has(a, id, index, size, whole)
    ensures Has(b, id, index, size, whole)
  {
    forall k: nat | ByteStreamed(a, id, index, k) ensures ByteStreamed(b, id, index, k) {
      var s :| s in a && s.id == id && s.index == index && s.from <= k < s.till;
      assert s in b;
    }
  }

  /** One more stretch, up to the end of the item, completes the last byte exactly when
  it starts before the end, and the item exactly when all before it was streamed. */
  lemma LastStretch(a: set<Stretch>, id: Id, index: nat, offset: nat, size: nat, device: string)
    requires offset <= size
    ensures var b := a + {Stretch(id, index, offset, size, device)};
            && (PrefixStreamed(b, id, index, size) <==> PrefixStreamed(a, id, index, offset))
            && (LastStreamed(b, id, index, size) <==> LastStreamed(a, id, index, size) || offset < size)
  {
    var last := Stretch(id, index, offset, size, device);
    forall k: nat
      ensures ByteStreamed(a + {last}, id, index, k) <==> ByteStreamed(a, id, index, k) || offset <= k < size
    {
      OneStretchMore(a, last, k);
    }
    hide ByteStreamed;
    if PrefixStreamed(a + {last}, id, index, size) {
      forall k: nat | k < offset ensures ByteStreamed(a, id, index, k) {
        assert ByteStreamed(a + {last}, id, index, k);
      }
    }
  }

  lemma OneStretchMore(a: set<Stretch>, s: Stretch, k: nat)
    ensures ByteStreamed(a + {s}, s.id, s.index, k) <==> ByteStreamed(a, s.id, s.index, k) || s.from <= k < s.till
  {
    if ByteStreamed(a, s.id, s.index, k) {
      var x :| x in a && x.id == s.id && x.index == s.index && x.from <= k < x.till;
      assert x in a + {s};
    }
    if s.from <= k < s.till { assert s in a + {s}; }
  }

  /** What one download adds to the memory of a relayed item. */
  lemma DeliverHands(v: Service, id: Id, index: int, got: Download, now: int)
    ensures var w := DeliverSpec(v, id, index, got, now).0;
            && v.streamed <= w.streamed
            && (forall c <- w.collected :: c in v.collected
                  || (c == (id, index as nat) && id in v.store.records && 0 <= index < |v.store.records[id].items|
                      && var size := v.store.records[id].items[index].size;
                         v.store.records[id].direction.Relayed? ==>
                           && got.offset <= size && got.device == v.store.records[id].target
                           && w.streamed == v.streamed + {Stretch(id, index, got.offset, size, got.device)}))
  {
    hide SetState, Put, Advance;
  }

  lemma StepReceives(v: Service, self: string, e: Timed, id: Id, i: nat, whole: bool)
    requires Inv(v) && Received(v, id, i, whole) && StartsWell(v, e, id, i, whole)
    ensures Received(Step(v, self, e), id, i, whole)
  {
    hide Has, DeliverSpec, SlotOk, QueueOk, RecordsOk, HistoryOk, RelayOk;
    var w := Step(v, self, e);
    StepAfter(v, self, e);
    if e.call.Deliver? {
      DeliverHands(v, e.call.id, e.call.index, e.call.download, e.now);
    } else {
      hide Step;
      CallHands(v, self, e);
    }
    if id in w.store.records && w.store.records[id].direction.Relayed? && i < |w.store.records[id].items|
       && (id, i) in w.collected {
      assert id in v.used;
      assert Grew(v.store.records[id], w.store.records[id]);
      var size := v.store.records[id].items[i].size;
      if (id, i) in v.collected {
        MoreIsStreamed(v.streamed, w.streamed, id, i, size, whole);
      } else {
        LastStretch(v.streamed, id, i, e.call.download.offset, size, e.call.download.device);
        NowHas(w, id, i, size, whole);
      }
    }
  }

  lemma NowHas(w: Service, id: Id, i: nat, size: nat, whole: bool)
    requires if whole then PrefixStreamed(w.streamed, id, i, size) else LastStreamed(w.streamed, id, i, size)
    ensures Has(w.streamed, id, i, size, whole)
  {
  }

  lemma {:induction false} RunReceives(v: Service, self: string, es: seq<Timed>, id: Id, i: nat, whole: bool)
    requires Inv(v) && Received(v, id, i, whole) && AllStartWell(v, self, es, id, i, whole)
    ensures Received(Run(v, self, es), id, i, whole)
    decreases |es|
  {
    hide Step, Inv, Received, StartsWell;
    if es != [] {
      StepKeeps(v, self, es[0]);
      StepReceives(v, self, es[0], id, i, whole);
      RunReceives(Step(v, self, es[0]), self, es[1..], id, i, whole);
    }
  }

  // ---------------------------------------------------- only to the target

  /** A download of a relayed item by anybody else is refused and changes nothing, in
  every state of the service. */
  lemma OnlyTheTargetCollects(v: Service, id: Id, index: int, got: Download, now: int)
    requires id in v.store.records && v.store.records[id].direction.Relayed?
    requires got.device != v.store.records[id].target
    ensures var (w, r) := DeliverSpec(v, id, index, got, now); w == v && r in {NotFound, Invalid}
    ensures 0 <= index < |v.store.records[id].items| && got.offset <= v.store.records[id].items[index].size ==>
              DeliverSpec(v, id, index, got, now).1 == NotFound
  {
  }

  /** Whatever was streamed of a relayed item went to the target of its transfer, and an
  item that was collected was streamed to it up to the end. */
  ghost predicate Addressed(v: Service) {
    && (forall s <- v.streamed :: s.id in v.used && ToTarget(v, s))
    && (forall c <- v.collected :: c.0 in v.used && ReachedTarget(v, c))
  }

  ghost predicate ToTarget(v: Service, s: Stretch) {
    s.id in v.store.records ==> v.store.records[s.id].direction.Relayed? && s.device == v.store.records[s.id].target
  }

  ghost predicate ReachedTarget(v: Service, c: (Id, nat)) {
    c.0 in v.store.records && v.store.records[c.0].direction.Relayed? && c.1 < |v.store.records[c.0].items| ==>
      EndStreamed(v, c.0, c.1, v.store.records[c.0].target)
  }

  ghost predicate EndStreamed(v: Service, id: Id, index: nat, device: string)
    requires id in v.store.records && index < |v.store.records[id].items|
  {
    exists s <- v.streamed :: s.id == id && s.index == index && s.device == device
                              && s.till == v.store.records[id].items[index].size
  }

  /** What one download adds, and to whom. */
  lemma DeliverAddresses(v: Service, id: Id, index: int, got: Download, now: int)
    ensures var w := DeliverSpec(v, id, index, got, now).0;
            && v.streamed <= w.streamed
            && (forall s <- w.streamed :: s in v.streamed
                  || (s.id == id && id in v.store.records && v.store.records[id].direction.Relayed?
                      && s.device == v.store.records[id].target))
            && (forall c <- w.collected :: c in v.collected
                  || (c == (id, index as nat) && id in v.store.records && 0 <= index < |v.store.records[id].items|
                      && (v.store.records[id].direction.Relayed? ==>
                            && got.device == v.store.records[id].target
                            && Stretch(id, index, got.offset, v.store.records[id].items[index].size, got.device)
                               in w.streamed)))
  {
    hide SetState, Put, Advance;
  }

  lemma StepAddresses(v: Service, self: string, e: Timed)
    requires Inv(v) && Addressed(v)
    ensures Addressed(Step(v, self, e))
  {
    var w := Step(v, self, e);
    StepAfter(v, self, e);
    RecordsAreUsed(v);
    if e.call.Deliver? {
      DeliverAddresses(v, e.call.id, e.call.index, e.call.download, e.now);
    } else {
      CallHands(v, self, e);
    }
    hide Step, Inv, DeliverSpec;
    forall s <- w.streamed ensures s.id in w.used && ToTarget(w, s) {
      if s in v.streamed { assert ToTarget(v, s); }
      if s.id in w.store.records { assert Grew(v.store.records[s.id], w.store.records[s.id]); }
    }
    forall c <- w.collected ensures c.0 in w.used && ReachedTarget(w, c) {
      if c.0 in w.store.records && w.store.records[c.0].direction.Relayed? && c.1 < |w.store.records[c.0].items| {
        assert Grew(v.store.records[c.0], w.store.records[c.0]);
        if c in v.collected { assert ReachedTarget(v, c); }
        assert EndStreamed(w, c.0, c.1, w.store.records[c.0].target);
      }
    }
  }

  lemma RecordsAreUsed(v: Service)
    requires Inv(v)
    ensures v.store.records.Keys <= v.used
  {
  }

  lemma {:induction false} RunAddresses(v: Service, self: string, es: seq<Timed>)
    requires Inv(v) && Addressed(v)
    ensures Addressed(Run(v, self, es))
    decreases |es|
  {
    hide Step, Inv, Addressed;
    if es != [] {
      StepKeeps(v, self, es[0]);
      StepAddresses(v, self, es[0]);
      RunAddresses(Step(v, self, es[0]), self, es[1..]);
    }
  }

  /** After any calls, every stretch of a relayed item went to the target of its transfer,
  and an item that counts as collected was streamed to it up to its end. */
  lemma RelayedGoesToTarget(self: string, es: seq<Timed>)
    ensures var v := Run(EMPTY, self, es);
            && (forall s <- v.streamed :: s.id in v.store.records ==> s.device == v.store.records[s.id].target)
            && (forall c <- v.collected :: ReachedTarget(v, c))
  {
    Reachable(self, []);
    NoCalls(self);
    RunAddresses(EMPTY, self, es);
    var v := Run(EMPTY, self, es);
    hide Run;
    assert forall s <- v.streamed :: ToTarget(v, s);
  }

  /** A relayed item that is complete was verified here and a download by its target ran
  to its end. If every download of it starts inside the file, the target was sent the
  last byte; if every download of it starts no later than those before it got to, the
  downloads together cover the file. */
  lemma RelayedMeansReceived(self: string, es: seq<Timed>, id: Id, i: nat)
    requires var s := Run(EMPTY, self, es).store;
             id in s.records && s.records[id].direction.Relayed? && i < |s.records[id].items|
             && s.records[id].items[i].state.Completed?
    ensures var v := Run(EMPTY, self, es); var size := v.store.records[id].items[i].size;
            && (id, i) in v.staged && (id, i) in v.collected
            && (AllStartWell(EMPTY, self, es, id, i, false) ==> LastStreamed(v.streamed, id, i, size))
            && (AllStartWell(EMPTY, self, es, id, i, true) ==> PrefixStreamed(v.streamed, id, i, size))
  {
    Reachable(self, []);
    Reachable(self, es);
    var v := Run(EMPTY, self, es);
    assert StagedOk(id, v.store.records[id], v.staged, v.collected);
    hide Run, AllStartWell, Inv;
    assert Run(EMPTY, self, []) == EMPTY by { NoCalls(self); }
    if AllStartWell(EMPTY, self, es, id, i, false) { RunReceives(EMPTY, self, es, id, i, false); }
    if AllStartWell(EMPTY, self, es, id, i, true) { RunReceives(EMPTY, self, es, id, i, true); }
  }

  lemma NoCalls(self: string)
    ensures Run(EMPTY, self, []) == EMPTY
  {
  }

  /** Both conditions are exact, whatever else is going on: a download by the target that
  runs to the end of a staged item sends it the last byte, when it had not got that
  before, exactly when it starts inside the file; and it leaves the target with the
  whole file exactly when everything before its start was streamed before. */
  lemma DeliversExactlyInside(v: Service, id: Id, index: nat, got: Download, now: int)
    requires id in v.store.records && index < |v.store.records[id].items|
    requires var t := v.store.records[id];
             && t.direction.Relayed? && got.device == t.target && !got.broken
             && (t.items[index].state.Verifying? || t.items[index].state.Completed?)
             && got.offset <= t.items[index].size <= got.offset + got.written
    ensures var w := DeliverSpec(v, id, index, got, now).0;
            var size := v.store.records[id].items[index].size;
            && (id, index) in w.collected
            && (LastStreamed(w.streamed, id, index, size)
                <==> LastStreamed(v.streamed, id, index, size) || got.offset < size)
            && (PrefixStreamed(w.streamed, id, index, size) <==> PrefixStreamed(v.streamed, id, index, got.offset))
  {
    hide SetState, Put, LastStreamed, PrefixStreamed;
    LastStretch(v.streamed, id, index, got.offset, v.store.records[id].items[index].size, got.device);
  }

  // ----------------------------- a relay completed without a byte streamed

  const OFFER := Declaration("phone", "tablet", [DeclaredItem(1, true, true)], false, true, Proceed, true)

  function OneByteRelay(state: State, item: FileItem, started: Option<int>, progress: Option<int>): Transfer {
    Transfer(Relayed, "phone", "tablet", [item], 1, item.offset, state, NoCause, 0, started, None, progress)
  }

  function AfterOffer(id: Id): Service {
    var t := OneByteRelay(Queued, FileItem(1, 0, Queued), None, None);
    Service(Snapshot(map[id := t], [id], None, map[]), {}, {id}, {}, {}, {})
  }

  function AfterUpload(id: Id): Service {
    var t := OneByteRelay(Running, FileItem(1, 1, Queued), Some(1), Some(1));
    Service(Snapshot(map[id := t], [], Some(id), map[]), {id}, {id}, {}, {}, {})
  }

  function AfterStaging(id: Id): Service {
    var t := OneByteRelay(Running, FileItem(1, 1, Verifying), Some(1), Some(1));
    Service(Snapshot(map[id := t], [], Some(id), map[]), {id}, {id}, {(id, 0)}, {}, {})
  }

  lemma OneByteSum(item: FileItem)
    ensures SumSizes([item]) == item.size
  {
    assert [item][1..] == [];
  }

  lemma OfferDeclared(id: Id)
    ensures Step(EMPTY, "pc", At(0, Declare(id, OFFER))) == AfterOffer(id)
  {
    assert OFFER.items[1..] == [];
    assert CheckItems(OFFER.items, 0, false) == (1, Fine);
    assert NewItems(OFFER.items) == [FileItem(1, 0, Queued)];
    OneByteSum(FileItem(1, 0, Queued));
  }

  lemma ByteReceived(id: Id)
    ensures Step(AfterOffer(id), "pc", At(1, Receive(id, 0, Reception(true, true, 1, NoFault)))) == AfterUpload(id)
  {
    var v := AfterOffer(id);
    TransitionShape(Queued, Running);
    hide CanTransition;
    assert v.store.entries[1..] == [];
    assert Without(v.store.entries, id) == [];
    assert [FileItem(1, 0, Queued)][0 := FileItem(1, 1, Queued)] == [FileItem(1, 1, Queued)];
    var started := OneByteRelay(Running, FileItem(1, 0, Queued), Some(1), None);
    assert StartIfWaiting(v, id, 1).0.store.records == map[id := started];
    assert Progressed(started, 0, 1, 1) == OneByteRelay(Running, FileItem(1, 1, Queued), Some(1), Some(1));
  }

  lemma ByteStaged(id: Id)
    ensures Step(AfterUpload(id), "pc", At(2, CommitItem(id, 0, Placement(true, true, true, Placed))))
            == AfterStaging(id)
  {
    OneByteSum(FileItem(1, 1, Verifying));
    assert [FileItem(1, 1, Queued)][0 := FileItem(1, 1, Verifying)] == [FileItem(1, 1, Verifying)];
  }

  lemma NothingStreamed(id: Id)
    ensures var w := Step(AfterStaging(id), "pc", At(3, Deliver(id, 0, Download("tablet", 1, 0, false))));
            && id in w.store.records && w.store.records[id].state.Completed?
            && w.streamed == {Stretch(id, 0, 1, 1, "tablet")}
  {
    var v := AfterStaging(id);
    OneByteSum(FileItem(1, 1, Completed));
    assert Marked(v.store.records[id], 0, Completed).items == [FileItem(1, 1, Completed)];
    var v1 := Streamed(v, id, 0, Download("tablet", 1, 0, false), 1);
    CompleteUnfolds(Collected(v1, id, 0), id, 0, 3);
    hide CompleteSpec;
  }

  /** A run without either condition: a one-byte file is offered, received and verified,
  and a download that asks for what follows the last byte completes the transfer and
  deletes the file, with no byte streamed. */
  lemma EmptyDownloadCompletes(id: Id) returns (es: seq<Timed>)
    ensures var v := Run(EMPTY, "pc", es);
            && id in v.store.records && v.store.records[id].state.Completed?
            && forall k: nat :: !ByteStreamed(v.streamed, id, 0, k)
    ensures |es| == 4 && es[3].call == Deliver(id, 0, Download("tablet", 1, 0, false))
  {
    var e0 := At(0, Declare(id, OFFER));
    var e1 := At(1, Receive(id, 0, Reception(true, true, 1, NoFault)));
    var e2 := At(2, CommitItem(id, 0, Placement(true, true, true, Placed)));
    var e3 := At(3, Deliver(id, 0, Download("tablet", 1, 0, false)));
    es := [e0, e1, e2, e3];
    OfferDeclared(id);
    ByteReceived(id);
    ByteStaged(id);
    NothingStreamed(id);
    hide Step;
    assert es[1..] == [e1, e2, e3] && [e1, e2, e3][1..] == [e2, e3] && [e2, e3][1..] == [e3] && [e3][1..] == [];
    assert Run(AfterStaging(id), "pc", [e3]) == Step(AfterStaging(id), "pc", e3);
    assert Run(AfterUpload(id), "pc", [e2, e3]) == Run(AfterStaging(id), "pc", [e3]);
    assert Run(AfterOffer(id), "pc", [e1, e2, e3]) == Run(AfterUpload(id), "pc", [e2, e3]);
  }
}
