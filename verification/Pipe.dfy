/**
The direct pipe: receivers wait, senders attach a body, and the two meet.

Every interleaving is a sequence of events. One event is one stretch of code that
holds the lock, or one channel operation, or one call of the once-guarded close.
`taker` is kept by the model alone: it says who took a demand out of the waiting
map, which the program knows only from which of its functions went on.
*/
module Pipe {
  import opened Common

  datatype Key = Key(transfer: string, item: int)

  /** What a supplier is told in the end. `Fine` is a nil error. */
  datatype Outcome =
    Fine | CopyFailed | NoSupplier | NoDemand | OffsetMismatch | Superseded | WentAway | Cancelled

  /** Why a waiting receiver stopped waiting by itself. */
  datatype Reason = Dropped | TimedOut

  /** Where the receiver is in `Await`: in the select, before `remove`, before
  `close`, streaming the body of one supplier, or returned with an error. */
  datatype Receiver = Waiting | Leaving(why: Reason) | Left(why: Reason) | Streaming(from: nat) | Gone(error: Outcome)

  datatype Taker = Nobody | Supplier(s: nat) | Canceller(c: nat) | Newer | Itself

  /** `ready` and `done` are the one-slot channels; `ended` is what `close` was
  first called with, so it is also the state of the once-guard and tells whether
  `ready` is closed. */
  datatype Demand = Demand(key: Key, offset: nat, ready: Option<nat>, done: Option<Outcome>,
                           ended: Option<Outcome>, receiver: Receiver, taker: Taker)

  datatype Phase = Claimed | Sent | Returned(out: Outcome) | Panicked

  datatype Supply = Supply(key: Key, offset: nat, claim: Option<nat>, phase: Phase)

  datatype Cancelling = Cancelling(claim: nat, closed: bool)

  datatype World = World(waiting: map<Key, nat>, demands: seq<Demand>,
                         suppliers: seq<Supply>, cancellers: seq<Cancelling>)

  const EMPTY := World(map[], [], [], [])

  datatype Event =
    | Await(key: Key, offset: nat)
    | Take(d: nat)
    | SeeClosed(d: nat)
    | GiveUp(d: nat, why: Reason)
    | Remove(d: nat)
    | CloseOwn(d: nat)
    | Finish(d: nat, fine: bool)
    | Attach(key: Key, offset: nat)
    | Offer(s: nat)
    | Collect(s: nat)
    | Cancel(key: Key)
    | CloseCancelled(c: nat)

  // ------------------------------------------------------------------- steps

  /** The once-guarded close. */
  function ClosedWith(d: Demand, out: Outcome): Demand {
    if d.ended.Some? then d
    else d.(ended := Some(out), done := if d.done.Some? then d.done else Some(out))
  }

  function NewDemand(key: Key, offset: nat): Demand {
    Demand(key, offset, None, None, None, Waiting, Nobody)
  }

  /** What the receiver closes its demand with, and what it returns. */
  function ClosesWith(why: Reason): Outcome {
    if why == Dropped then WentAway else NoSupplier
  }

  function Returns(why: Reason): Outcome {
    if why == Dropped then Cancelled else NoSupplier
  }

  ghost predicate Enabled(w: World, e: Event) {
    match e
    case Await(_, _) => true
    case Take(d) => d < |w.demands| && w.demands[d].receiver.Waiting? && w.demands[d].ready.Some?
    case SeeClosed(d) =>
      d < |w.demands| && w.demands[d].receiver.Waiting? && w.demands[d].ready.None? && w.demands[d].ended.Some?
    case GiveUp(d, _) => d < |w.demands| && w.demands[d].receiver.Waiting?
    case Remove(d) => d < |w.demands| && w.demands[d].receiver.Leaving?
    case CloseOwn(d) => d < |w.demands| && w.demands[d].receiver.Left?
    case Finish(d, _) => d < |w.demands| && w.demands[d].receiver.Streaming?
    case Attach(_, _) => true
    case Offer(s) =>
      s < |w.suppliers| && w.suppliers[s].phase.Claimed? && w.suppliers[s].claim.Some?
      && w.suppliers[s].claim.value < |w.demands|
    case Collect(s) =>
      s < |w.suppliers| && w.suppliers[s].phase.Sent? && w.suppliers[s].claim.Some?
      && w.suppliers[s].claim.value < |w.demands| && w.demands[w.suppliers[s].claim.value].done.Some?
    case Cancel(_) => true
    case CloseCancelled(c) =>
      c < |w.cancellers| && !w.cancellers[c].closed && w.cancellers[c].claim < |w.demands|
  }

  ghost predicate Filed(w: World) {
    forall k :: k in w.waiting ==> w.waiting[k] < |w.demands|
  }

  function SetDemand(w: World, d: nat, v: Demand): World
    requires d < |w.demands|
  {
    w.(demands := w.demands[d := v])
  }

  /** Registers a demand, closing the one it supersedes. */
  function Registered(w: World, key: Key, offset: nat): World
    requires Filed(w)
  {
    var before :=
      if key in w.waiting then
        var d := w.waiting[key];
        w.demands[d := ClosedWith(w.demands[d], Superseded).(taker := Newer)]
      else w.demands;
    w.(waiting := w.waiting[key := |before|], demands := before + [NewDemand(key, offset)])
  }

  /** The locked half of `Supply`: the waiting demand is taken out of the map. */
  function Attached(w: World, key: Key, offset: nat): World
    requires Filed(w)
  {
    if key !in w.waiting then
      w.(suppliers := w.suppliers + [Supply(key, offset, None, Returned(NoDemand))])
    else
      var d := w.waiting[key];
      World(w.waiting - {key}, w.demands[d := w.demands[d].(taker := Supplier(|w.suppliers|))],
            w.suppliers + [Supply(key, offset, Some(d), Claimed)], w.cancellers)
  }

  /** The rest of `Supply` up to the wait: refuse a wrong offset, hand over the
  body, or find the channel full. Sending on a closed channel panics. */
  function Offered(w: World, s: nat): World
    requires Enabled(w, Offer(s))
  {
    var me := w.suppliers[s];
    var d := w.demands[me.claim.value];
    if me.offset != d.offset then
      w.(demands := w.demands[me.claim.value := ClosedWith(d, OffsetMismatch)],
         suppliers := w.suppliers[s := me.(phase := Returned(OffsetMismatch))])
    else if d.ended.Some? then
      w.(suppliers := w.suppliers[s := me.(phase := Panicked)])
    else if d.ready.Some? then
      w.(suppliers := w.suppliers[s := me.(phase := Returned(NoDemand))])
    else
      w.(demands := w.demands[me.claim.value := d.(ready := Some(s))],
         suppliers := w.suppliers[s := me.(phase := Sent)])
  }

  function Collected(w: World, s: nat): World
    requires Enabled(w, Collect(s))
  {
    var me := w.suppliers[s];
    var d := w.demands[me.claim.value];
    w.(demands := w.demands[me.claim.value := d.(done := None)],
       suppliers := w.suppliers[s := me.(phase := Returned(d.done.value))])
  }

  function CancelledKey(w: World, key: Key): World
    requires Filed(w)
  {
    if key !in w.waiting then w
    else
      var d := w.waiting[key];
      World(w.waiting - {key}, w.demands[d := w.demands[d].(taker := Canceller(|w.cancellers|))],
            w.suppliers, w.cancellers + [Cancelling(d, false)])
  }

  /** Drops a demand from the map only if it is still the current one. */
  function Removed(w: World, d: nat): World
    requires d < |w.demands| && w.demands[d].receiver.Leaving?
  {
    var me := w.demands[d];
    if me.key in w.waiting && w.waiting[me.key] == d then
      w.(waiting := w.waiting - {me.key},
         demands := w.demands[d := me.(receiver := Left(me.receiver.why), taker := Itself)])
    else
      SetDemand(w, d, me.(receiver := Left(me.receiver.why)))
  }

  /** One step; an event that cannot happen changes nothing. */
  ghost function Step(w: World, e: Event): World {
    if !Enabled(w, e) || !Filed(w) then w
    else
      match e
      case Await(key, offset) => Registered(w, key, offset)
      case Take(d) =>
        SetDemand(w, d, w.demands[d].(receiver := Streaming(w.demands[d].ready.value), ready := None))
      case SeeClosed(d) => SetDemand(w, d, w.demands[d].(receiver := Gone(NoSupplier)))
      case GiveUp(d, why) => SetDemand(w, d, w.demands[d].(receiver := Leaving(why)))
      case Remove(d) => Removed(w, d)
      case CloseOwn(d) =>
        var why := w.demands[d].receiver.why;
        SetDemand(w, d, ClosedWith(w.demands[d], ClosesWith(why)).(receiver := Gone(Returns(why))))
      case Finish(d, fine) => SetDemand(w, d, ClosedWith(w.demands[d], if fine then Fine else CopyFailed))
      case Attach(key, offset) => Attached(w, key, offset)
      case Offer(s) => Offered(w, s)
      case Collect(s) => Collected(w, s)
      case Cancel(key) => CancelledKey(w, key)
      case CloseCancelled(c) =>
        var d := w.cancellers[c].claim;
        SetDemand(w, d, ClosedWith(w.demands[d], Cancelled)).(cancellers := w.cancellers[c := Cancelling(d, true)])
  }

  ghost function Run(events: seq<Event>): World {
    if |events| == 0 then EMPTY else Step(Run(events[..|events| - 1]), events[|events| - 1])
  }

  // --------------------------------------------------------------- invariant

  /** What the supplier that took a demand has to do with its channels. */
  ghost predicate SuppliedOk(d: Demand, s: nat, me: Supply) {
    match me.phase
    case Claimed =>
      d.ready.None? && !d.receiver.Streaming? && d.done == d.ended && d.ended != Some(Fine)
      && (d.ended.Some? ==> d.receiver.Gone? && d.ended.value in {WentAway, NoSupplier})
    case Sent => me.offset == d.offset && d.done == d.ended && HandedOver(d, s)
    case Returned(out) =>
      if me.offset != d.offset then out == OffsetMismatch && !d.receiver.Streaming? && d.ready.None? && d.ended.Some?
                                    && d.ended != Some(Fine)
      else d.ended == Some(out) && d.done.None? && HandedOver(d, s)
    case Panicked =>
      me.offset == d.offset && d.ready.None? && d.receiver.Gone? && d.ended.Some?
      && d.ended.value in {WentAway, NoSupplier}
  }

  /** The body is in the channel or with the receiver; it may also be stranded in
  the channel of a receiver that gave up, which then never streamed anything. */
  ghost predicate HandedOver(d: Demand, s: nat) {
    if d.receiver.Streaming? then
      d.receiver.from == s && d.ready.None? && (d.ended.Some? ==> d.ended.value in {Fine, CopyFailed})
    else d.ready == Some(s) && (d.receiver.Waiting? ==> d.ended.None?)
         && (d.ended.Some? ==> d.receiver.Gone? && d.ended.value in {WentAway, NoSupplier})
  }

  ghost predicate Untouched(d: Demand) {
    d.ready.None? && !d.receiver.Streaming? && d.ended != Some(Fine)
  }

  ghost predicate DemandOk(w: World, d: nat)
    requires d < |w.demands|
  {
    var me := w.demands[d];
    && (me.receiver.Gone? ==> me.ended.Some?)
    && match me.taker
       case Nobody =>
         me.key in w.waiting && w.waiting[me.key] == d && me.ended.None? && me.done.None? && me.ready.None?
         && (me.receiver.Waiting? || me.receiver.Leaving?)
       case Supplier(s) =>
         s < |w.suppliers| && w.suppliers[s].claim == Some(d) && w.suppliers[s].key == me.key
         && SuppliedOk(me, s, w.suppliers[s])
       case Canceller(c) =>
         c < |w.cancellers| && w.cancellers[c].claim == d && Untouched(me)
         && (w.cancellers[c].closed ==> me.ended.Some?)
       case Newer => Untouched(me) && me.ended.Some?
       case Itself => Untouched(me) && (me.receiver.Left? || me.receiver.Gone?)
  }

  ghost predicate Inv(w: World) {
    && Filed(w)
    && (forall k :: k in w.waiting ==> w.demands[w.waiting[k]].key == k && w.demands[w.waiting[k]].taker.Nobody?)
    && (forall d :: 0 <= d < |w.demands| ==> DemandOk(w, d))
    && (forall s :: 0 <= s < |w.suppliers| ==> SupplierOk(w, s))
    && (forall c :: 0 <= c < |w.cancellers| ==>
          w.cancellers[c].claim < |w.demands| && w.demands[w.cancellers[c].claim].taker == Canceller(c))
  }

  ghost predicate SupplierOk(w: World, s: nat)
    requires s < |w.suppliers|
  {
    match w.suppliers[s].claim
    case Some(d) => d < |w.demands| && w.demands[d].taker == Supplier(s)
    case None => w.suppliers[s].phase == Returned(NoDemand)
  }

  /** A change to one demand that leaves its key and its taker alone. */
  lemma SetKeepsInv(w: World, d: nat, v: Demand)
    requires Inv(w) && d < |w.demands|
    requires v.key == w.demands[d].key && v.taker == w.demands[d].taker
    requires DemandOk(SetDemand(w, d, v), d)
    ensures Inv(SetDemand(w, d, v))
  {
    hide SuppliedOk, Untouched;
    var w' := SetDemand(w, d, v);
    forall x | 0 <= x < |w'.demands| ensures DemandOk(w', x) {
      assert DemandOk(w, x);
    }
    forall s | 0 <= s < |w'.suppliers| ensures SupplierOk(w', s) {
      assert SupplierOk(w, s);
    }
  }

  /** The receiver's own steps. */
  lemma ReceiverKeepsInv(w: World, e: Event)
    requires Inv(w) && Enabled(w, e)
    requires e.Take? || e.SeeClosed? || e.GiveUp? || e.CloseOwn? || e.Finish?
    ensures Inv(Step(w, e))
  {
    var d := e.d;
    assert DemandOk(w, d);
    var w' := Step(w, e);
    if w.demands[d].taker.Supplier? {
      assert SupplierOk(w, w.demands[d].taker.s);
    }
    SetKeepsInv(w, d, w'.demands[d]);
  }

  lemma RegisteredKeepsInv(w: World, key: Key, offset: nat)
    requires Inv(w)
    ensures Inv(Registered(w, key, offset))
  {
    hide SuppliedOk;
    var w' := Registered(w, key, offset);
    forall d | 0 <= d < |w'.demands| ensures DemandOk(w', d) {
      if d < |w.demands| { assert DemandOk(w, d); }
    }
    forall s | 0 <= s < |w'.suppliers| ensures SupplierOk(w', s) {
      assert SupplierOk(w, s);
    }
  }

  lemma RemovedKeepsInv(w: World, d: nat)
    requires Inv(w) && Enabled(w, Remove(d))
    ensures Inv(Removed(w, d))
  {
    var w' := Removed(w, d);
    forall x | 0 <= x < |w'.demands| ensures DemandOk(w', x) {
      assert DemandOk(w, x);
    }
    forall s | 0 <= s < |w'.suppliers| ensures SupplierOk(w', s) {
      assert SupplierOk(w, s);
    }
  }

  lemma AttachedKeepsInv(w: World, key: Key, offset: nat)
    requires Inv(w)
    ensures Inv(Attached(w, key, offset))
  {
    var w' := Attached(w, key, offset);
    forall d | 0 <= d < |w'.demands| ensures DemandOk(w', d) {
      assert DemandOk(w, d);
    }
    forall s | 0 <= s < |w'.suppliers| ensures SupplierOk(w', s) {
      if s < |w.suppliers| { assert SupplierOk(w, s); }
    }
  }

  lemma CancelledKeepsInv(w: World, key: Key)
    requires Inv(w)
    ensures Inv(CancelledKey(w, key))
  {
    hide SuppliedOk;
    var w' := CancelledKey(w, key);
    forall d | 0 <= d < |w'.demands| ensures DemandOk(w', d) {
      assert DemandOk(w, d);
    }
    forall s | 0 <= s < |w'.suppliers| ensures SupplierOk(w', s) {
      assert SupplierOk(w, s);
    }
  }

  /** A change to one demand and to the supplier that took it. */
  lemma SetBothKeepsInv(w: World, d: nat, v: Demand, s: nat, me: Supply)
    requires Inv(w) && d < |w.demands| && s < |w.suppliers| && w.demands[d].taker == Supplier(s)
    requires v.key == w.demands[d].key && v.taker == w.demands[d].taker && v.receiver == w.demands[d].receiver
    requires v.receiver.Gone? ==> v.ended.Some?
    requires me.claim == Some(d) && me.key == v.key && SuppliedOk(v, s, me)
    ensures Inv(w.(demands := w.demands[d := v], suppliers := w.suppliers[s := me]))
  {
    hide SuppliedOk, Untouched;
    var w' := w.(demands := w.demands[d := v], suppliers := w.suppliers[s := me]);
    assert DemandOk(w, d);
    forall x | 0 <= x < |w'.demands| ensures DemandOk(w', x) {
      assert DemandOk(w, x);
    }
    forall x | 0 <= x < |w'.suppliers| ensures SupplierOk(w', x) {
      assert SupplierOk(w, x);
    }
  }

  lemma TakenIsOk(w: World, s: nat)
    requires Inv(w) && s < |w.suppliers| && w.suppliers[s].claim.Some?
    ensures var d := w.suppliers[s].claim.value;
            && d < |w.demands| && w.demands[d].taker == Supplier(s) && w.suppliers[s].key == w.demands[d].key
            && SuppliedOk(w.demands[d], s, w.suppliers[s])
            && (w.demands[d].receiver.Gone? ==> w.demands[d].ended.Some?)
  {
    hide SuppliedOk, Untouched;
    assert SupplierOk(w, s) && DemandOk(w, w.suppliers[s].claim.value);
  }

  /** A supplier's step touches its own record and the one demand it took. */
  lemma OfferKeepsInv(w: World, s: nat)
    requires Inv(w) && Enabled(w, Offer(s))
    ensures Inv(Step(w, Offer(s)))
  {
    TakenIsOk(w, s);
    var w', d := Offered(w, s), w.suppliers[s].claim.value;
    SetBothKeepsInv(w, d, w'.demands[d], s, w'.suppliers[s]);
    assert Filed(w) && w.demands[d := w.demands[d]] == w.demands;
    hide Inv, SuppliedOk;
  }

  lemma CollectKeepsInv(w: World, s: nat)
    requires Inv(w) && Enabled(w, Collect(s))
    ensures Inv(Step(w, Collect(s)))
  {
    TakenIsOk(w, s);
    var w', d := Collected(w, s), w.suppliers[s].claim.value;
    SetBothKeepsInv(w, d, w'.demands[d], s, w'.suppliers[s]);
    assert Filed(w);
    hide Inv, SuppliedOk;
  }

  lemma CloseCancelledKeepsInv(w: World, c: nat)
    requires Inv(w) && Enabled(w, CloseCancelled(c))
    ensures Inv(Step(w, CloseCancelled(c)))
  {
    hide SuppliedOk;
    var w' := Step(w, CloseCancelled(c));
    forall d | 0 <= d < |w'.demands| ensures DemandOk(w', d) {
      assert DemandOk(w, d);
    }
    forall s | 0 <= s < |w'.suppliers| ensures SupplierOk(w', s) {
      assert SupplierOk(w, s);
    }
  }

  lemma EmptyOk()
    ensures Inv(EMPTY)
  {
  }

  lemma StepKeepsInv(w: World, e: Event)
    requires Inv(w)
    ensures Inv(Step(w, e))
  {
    hide Inv;
    if Enabled(w, e) {
      match e
      case Await(key, offset) => RegisteredKeepsInv(w, key, offset);
      case Remove(d) => RemovedKeepsInv(w, d);
      case Attach(key, offset) => AttachedKeepsInv(w, key, offset);
      case Offer(s) => OfferKeepsInv(w, s);
      case Collect(s) => CollectKeepsInv(w, s);
      case Cancel(key) => CancelledKeepsInv(w, key);
      case CloseCancelled(c) => CloseCancelledKeepsInv(w, c);
      case _ => ReceiverKeepsInv(w, e);
    }
  }

  lemma {:induction false} RunKeepsInv(events: seq<Event>)
    ensures Inv(Run(events))
  {
    hide Inv, Step;
    if |events| == 0 {
      EmptyOk();
    } else {
      RunKeepsInv(events[..|events| - 1]);
      StepKeepsInv(Run(events[..|events| - 1]), events[|events| - 1]);
    }
  }

  // ------------------------------------------------------ what later keeps

  /** What no later step takes back: who took a demand, what it was closed with,
  which body its receiver holds, and what a supplier was told. */
  ghost predicate Later(w: World, w': World) {
    && |w.demands| <= |w'.demands| && |w.suppliers| <= |w'.suppliers|
    && (forall d :: 0 <= d < |w.demands| ==> LaterDemand(w.demands[d], w'.demands[d]))
    && (forall s :: 0 <= s < |w.suppliers| ==> LaterSupply(w.suppliers[s], w'.suppliers[s]))
  }

  ghost predicate LaterDemand(d: Demand, d': Demand) {
    && d'.key == d.key && d'.offset == d.offset
    && (!d.taker.Nobody? ==> d'.taker == d.taker)
    && (d.ended.Some? ==> d'.ended == d.ended)
    && (d.receiver.Streaming? || d.receiver.Gone? ==> d'.receiver == d.receiver)
  }

  ghost predicate LaterSupply(s: Supply, s': Supply) {
    && s'.key == s.key && s'.offset == s.offset && s'.claim == s.claim
    && (s.phase.Returned? || s.phase.Panicked? ==> s'.phase == s.phase)
    && (s.phase.Sent? ==> s'.phase.Sent? || s'.phase.Returned?)
  }

  lemma RegistrationIsLater(w: World, e: Event)
    requires Inv(w) && (e.Await? || e.Attach? || e.Cancel?)
    ensures Later(w, Step(w, e))
  {
    hide DemandOk, SupplierOk, Offered, Collected, Removed;
  }

  lemma SupplierIsLater(w: World, e: Event)
    requires Inv(w) && (e.Offer? || e.Collect?)
    ensures Later(w, Step(w, e))
  {
    hide DemandOk, SupplierOk, Registered, Attached, CancelledKey, Removed;
  }

  lemma ReceiverIsLater(w: World, e: Event)
    requires Inv(w)
    requires e.Take? || e.SeeClosed? || e.GiveUp? || e.Remove? || e.CloseOwn? || e.Finish? || e.CloseCancelled?
    ensures Later(w, Step(w, e))
  {
    hide DemandOk, SupplierOk, Registered, Attached, CancelledKey, Offered, Collected;
  }

  lemma StepIsLater(w: World, e: Event)
    requires Inv(w)
    ensures Later(w, Step(w, e))
  {
    hide Inv, Later, Step;
    if e.Await? || e.Attach? || e.Cancel? {
      RegistrationIsLater(w, e);
    } else if e.Offer? || e.Collect? {
      SupplierIsLater(w, e);
    } else {
      ReceiverIsLater(w, e);
    }
  }

  lemma {:induction false} NothingIsTakenBack(events: seq<Event>, more: seq<Event>)
    ensures Later(Run(events), Run(events + more))
  {
    hide Step, Inv;
    if |more| == 0 {
      assert events + more == events;
    } else {
      var before := events + more[..|more| - 1];
      assert (events + more)[..|events + more| - 1] == before;
      NothingIsTakenBack(events, more[..|more| - 1]);
      RunKeepsInv(before);
      StepIsLater(Run(before), (events + more)[|events + more| - 1]);
    }
  }

  // ------------------------------------------------------------- main results

  lemma FineComesFromFinish(w: World, e: Event, d: nat)
    requires Inv(w) && d < |Step(w, e).demands| && Step(w, e).demands[d].ended == Some(Fine)
    ensures d < |w.demands|
    ensures w.demands[d].ended != Some(Fine) ==>
              e == Finish(d, true) && w.demands[d].receiver.Streaming? && w.demands[d].ended.None?
  {
    hide DemandOk, SupplierOk;
  }

  /** A demand closed with a nil error was closed by the receiver streaming it,
  and that was the first close. */
  lemma {:induction false} FineWasFinished(events: seq<Event>, d: nat) returns (i: nat)
    requires d < |Run(events).demands| && Run(events).demands[d].ended == Some(Fine)
    ensures i < |events| && events[i] == Finish(d, true)
    ensures var at := Run(events[..i]);
            d < |at.demands| && at.demands[d].receiver.Streaming? && at.demands[d].ended.None?
  {
    hide Inv, Step;
    var n := |events| - 1;
    var w := Run(events[..n]);
    RunKeepsInv(events[..n]);
    FineComesFromFinish(w, events[n], d);
    if d < |w.demands| && w.demands[d].ended == Some(Fine) {
      i := FineWasFinished(events[..n], d);
      assert events[..n][..i] == events[..i];
    } else {
      i := n;
    }
  }

  lemma FineIsStreamed(w: World, s: nat) returns (d: nat)
    requires Inv(w) && s < |w.suppliers| && w.suppliers[s].phase == Returned(Fine)
    ensures d < |w.demands| && w.demands[d].receiver == Streaming(s)
    ensures w.demands[d].key == w.suppliers[s].key && w.demands[d].offset == w.suppliers[s].offset
    ensures w.demands[d].ended == Some(Fine)
    ensures forall x :: 0 <= x < |w.demands| && w.demands[x].receiver == Streaming(s) ==> x == d
  {
    assert SupplierOk(w, s);
    d := w.suppliers[s].claim.value;
    assert DemandOk(w, d);
    forall x | 0 <= x < |w.demands| && w.demands[x].receiver == Streaming(s) ensures x == d {
      assert DemandOk(w, x);
    }
  }

  /** A supplier is told nil only if the one receiver that holds this very body,
  waiting for this item at this offset, finished with nil. */
  lemma NilMeansReceived(events: seq<Event>, s: nat) returns (d: nat, i: nat)
    requires s < |Run(events).suppliers| && Run(events).suppliers[s].phase == Returned(Fine)
    ensures var w := Run(events);
            && d < |w.demands| && w.demands[d].receiver == Streaming(s)
            && w.demands[d].key == w.suppliers[s].key && w.demands[d].offset == w.suppliers[s].offset
            && w.demands[d].ended == Some(Fine)
            && (forall x :: 0 <= x < |w.demands| && w.demands[x].receiver == Streaming(s) ==> x == d)
    ensures i < |events| && events[i] == Finish(d, true)
    ensures d < |Run(events[..i]).demands| && Run(events[..i]).demands[d].receiver == Streaming(s)
  {
    hide Run, Step;
    RunKeepsInv(events);
    d := FineIsStreamed(Run(events), s);
    hide Inv;
    i := FineWasFinished(events, d);
    NothingIsTakenBack(events[..i], events[i..]);
    assert events[..i] + events[i..] == events;
  }

  /** No body reaches two receivers and no demand gets two bodies. */
  lemma BodiesAreNotShared(events: seq<Event>, more: seq<Event>, d: nat, x: nat, s: nat, t: nat)
    requires d < |Run(events).demands| && Run(events).demands[d].receiver == Streaming(s)
    requires x < |Run(events + more).demands| && Run(events + more).demands[x].receiver == Streaming(t)
    ensures d == x <==> s == t
  {
    hide Step;
    NothingIsTakenBack(events, more);
    RunKeepsInv(events + more);
    var w := Run(events + more);
    assert DemandOk(w, d) && DemandOk(w, x);
  }

  /** A demand in the waiting map is open, and its receiver has not returned. */
  lemma RegisteredIsOpen(events: seq<Event>, key: Key)
    requires key in Run(events).waiting
    ensures var w := Run(events);
            && w.waiting[key] < |w.demands|
            && w.demands[w.waiting[key]].key == key
            && w.demands[w.waiting[key]].ended.None?
            && !w.demands[w.waiting[key]].receiver.Streaming? && !w.demands[w.waiting[key]].receiver.Gone?
  {
    hide Step;
    RunKeepsInv(events);
    assert DemandOk(Run(events), Run(events).waiting[key]);
  }

  /** A demand leaves the map at most once: it is out of the map exactly when
  somebody took it, and the taker never changes again. */
  lemma ClaimedOnce(events: seq<Event>, more: seq<Event>, d: nat)
    requires d < |Run(events).demands|
    ensures var w := Run(events); var w' := Run(events + more);
            && d < |w'.demands|
            && (w.demands[d].taker.Nobody? <==> w.demands[d].key in w.waiting && w.waiting[w.demands[d].key] == d)
            && (!w.demands[d].taker.Nobody? ==> w'.demands[d].taker == w.demands[d].taker)
    ensures var w := Run(events);
            forall s :: 0 <= s < |w.suppliers| && w.suppliers[s].claim == Some(d) ==> w.demands[d].taker == Supplier(s)
    ensures var w := Run(events);
            forall c :: 0 <= c < |w.cancellers| && w.cancellers[c].claim == d ==> w.demands[d].taker == Canceller(c)
  {
    hide Step;
    NothingIsTakenBack(events, more);
    RunKeepsInv(events);
    var w := Run(events);
    assert DemandOk(w, d);
    forall s | 0 <= s < |w.suppliers| && w.suppliers[s].claim == Some(d) ensures w.demands[d].taker == Supplier(s) {
      assert SupplierOk(w, s);
    }
  }

  /** Only four steps end a registration; a superseded demand's own clean-up is
  not among them, so it never evicts its replacement. */
  lemma OnlyOwnStepsUnregister(events: seq<Event>, e: Event, key: Key)
    requires key in Run(events).waiting
    ensures var w := Run(events); var w' := Step(w, e);
            (key in w'.waiting && w'.waiting[key] == w.waiting[key])
            <==> !(((e.Await? || e.Attach? || e.Cancel?) && e.key == key)
                   || (e == Remove(w.waiting[key]) && Enabled(w, e)))
  {
    RunKeepsInv(events);
    var w := Run(events);
    assert DemandOk(w, w.waiting[key]);
  }

  /** A supplier is told that nobody is waiting exactly when it found nobody in
  the map: the branch for a full channel is never taken. */
  lemma FullChannelIsUnreachable(events: seq<Event>, s: nat)
    requires s < |Run(events).suppliers|
    ensures var w := Run(events);
            && (w.suppliers[s].phase == Returned(NoDemand) <==> w.suppliers[s].claim.None?)
            && (Enabled(w, Offer(s)) ==> w.demands[w.suppliers[s].claim.value].ready.None?)
  {
    RunKeepsInv(events);
    var w := Run(events);
    assert SupplierOk(w, s);
    if w.suppliers[s].claim.Some? {
      assert DemandOk(w, w.suppliers[s].claim.value);
    }
  }

  /** Handing over a body panics exactly when the offsets agree and the receiver
  returned after the supplier had taken its demand out of the map. */
  lemma PanicsExactlyWhenReceiverLeft(events: seq<Event>, s: nat)
    requires Enabled(Run(events), Offer(s))
    ensures var w := Run(events); var d := w.demands[w.suppliers[s].claim.value];
            Step(w, Offer(s)).suppliers[s].phase.Panicked? <==> w.suppliers[s].offset == d.offset && d.receiver.Gone?
  {
    RunKeepsInv(events);
    var w := Run(events);
    assert SupplierOk(w, s) && DemandOk(w, w.suppliers[s].claim.value);
  }

  lemma RunLast(events: seq<Event>, e: Event)
    ensures Run(events + [e]) == Step(Run(events), e)
  {
    assert (events + [e])[..|events + [e]| - 1] == events;
  }

  /** The panic can happen from any state in which a supplier has taken the demand
  of a receiver that still waits: the wait ends before the body is handed over. */
  lemma PanicIsReachable(events: seq<Event>, s: nat, why: Reason)
    requires Enabled(Run(events), Offer(s))
    requires var w := Run(events); var d := w.suppliers[s].claim.value;
             w.demands[d].receiver.Waiting? && w.suppliers[s].offset == w.demands[d].offset
    ensures var d := Run(events).suppliers[s].claim.value;
            var w := Run(events + [GiveUp(d, why)] + [Remove(d)] + [CloseOwn(d)] + [Offer(s)]);
            s < |w.suppliers| && w.suppliers[s].phase.Panicked?
  {
    var d := Run(events).suppliers[s].claim.value;
    var e1 := events + [GiveUp(d, why)];
    var e2 := e1 + [Remove(d)];
    var e3 := e2 + [CloseOwn(d)];
    RunKeepsInv(events);
    RunKeepsInv(e3);
    RunLast(events, GiveUp(d, why));
    RunLast(e1, Remove(d));
    RunLast(e2, CloseOwn(d));
    RunLast(e3, Offer(s));
    assert SupplierOk(Run(events), s);
    LeavingTakesThreeSteps(Run(events), d, why);
  }

  /** From the start: one wait and one lookup lead to such a state, so five steps before
  the hand-over are enough. */
  lemma PanicFromTheStart(key: Key, offset: nat, why: Reason)
    ensures var w := Run([Await(key, offset), Attach(key, offset)] + [GiveUp(0, why)] + [Remove(0)] + [CloseOwn(0)]
                         + [Offer(0)]);
            |w.suppliers| == 1 && w.suppliers[0].phase.Panicked?
  {
    var e1 := [Await(key, offset)];
    var e2 := e1 + [Attach(key, offset)];
    assert e2 == [Await(key, offset), Attach(key, offset)];
    assert [] + e1 == e1;
    RunLast([], Await(key, offset));
    RunLast(e1, Attach(key, offset));
    assert Run([]) == EMPTY;
    TwoStepsClaim(key, offset);
    PanicIsReachable(e2, 0, why);
    hide Run;
    OnlyAttachesAdd(e2, why);
  }

  lemma TwoStepsClaim(key: Key, offset: nat)
    ensures Step(Step(EMPTY, Await(key, offset)), Attach(key, offset))
            == World(map[], [NewDemand(key, offset).(taker := Supplier(0))],
                     [Supply(key, offset, Some(0), Claimed)], [])
  {
    var w := Step(EMPTY, Await(key, offset));
    assert w == World(map[key := 0], [NewDemand(key, offset)], [], []);
    assert w.waiting - {key} == map[];
  }

  /** The receiver's and the supplier's own steps start no new supplier. */
  lemma OnlyAttachesAdd(events: seq<Event>, why: Reason)
    ensures var w := Run(events + [GiveUp(0, why)] + [Remove(0)] + [CloseOwn(0)] + [Offer(0)]);
            |w.suppliers| == |Run(events).suppliers|
  {
    var e1 := events + [GiveUp(0, why)];
    var e2 := e1 + [Remove(0)];
    var e3 := e2 + [CloseOwn(0)];
    hide Run, Step;
    RunLast(events, GiveUp(0, why));
    RunLast(e1, Remove(0));
    RunLast(e2, CloseOwn(0));
    RunLast(e3, Offer(0));
    OnlyAttachAdds(Run(events), GiveUp(0, why));
    OnlyAttachAdds(Run(e1), Remove(0));
    OnlyAttachAdds(Run(e2), CloseOwn(0));
    OnlyAttachAdds(Run(e3), Offer(0));
  }

  lemma OnlyAttachAdds(w: World, e: Event)
    requires !e.Attach?
    ensures |Step(w, e).suppliers| == |w.suppliers|
  {
  }

  lemma LeavingTakesThreeSteps(w: World, d: nat, why: Reason)
    requires Inv(w) && d < |w.demands| && w.demands[d].receiver.Waiting?
    ensures var w' := Step(Step(Step(w, GiveUp(d, why)), Remove(d)), CloseOwn(d));
            && d < |w'.demands| && w'.demands[d].receiver.Gone? && w'.demands[d].ended.Some?
            && w'.demands[d].offset == w.demands[d].offset && w'.suppliers == w.suppliers
  {
  }

  /** A supplier that handed over its body can collect an outcome exactly when the
  receiver finished or gave up, it is the receiver's outcome, and it is the only
  one the supplier ever gets. */
  lemma OneOutcomeEach(events: seq<Event>, more: seq<Event>, s: nat)
    requires s < |Run(events).suppliers| && Run(events).suppliers[s].phase.Sent?
    ensures var w := Run(events); var d := w.suppliers[s].claim;
            && d.Some? && d.value < |w.demands|
            && (Enabled(w, Collect(s)) <==> w.demands[d.value].ended.Some?)
            && (w.demands[d.value].receiver.Gone? ==> Enabled(w, Collect(s)))
            && (Enabled(w, Collect(s)) ==>
                  Step(w, Collect(s)).suppliers[s].phase == Returned(w.demands[d.value].ended.value))
    ensures var w' := Run(events + more);
            && s < |w'.suppliers|
            && (w'.suppliers[s].phase.Sent?
                || w'.suppliers[s].phase == Returned(Fine) || w'.suppliers[s].phase == Returned(CopyFailed)
                || w'.suppliers[s].phase == Returned(WentAway) || w'.suppliers[s].phase == Returned(NoSupplier))
  {
    NothingIsTakenBack(events, more);
    RunKeepsInv(events);
    RunKeepsInv(events + more);
    var w, w' := Run(events), Run(events + more);
    assert SupplierOk(w, s) && SupplierOk(w', s);
    assert DemandOk(w, w.suppliers[s].claim.value) && DemandOk(w', w.suppliers[s].claim.value);
  }

  // ------------------------------------------------- which outcome it is

  /** What an open demand is closed with, by every step that closes it. */
  lemma ClosedWithWhat(events: seq<Event>, e: Event, d: nat)
    requires d < |Run(events).demands| && Run(events).demands[d].ended.None?
    ensures var w := Run(events); var me := w.demands[d];
            var closed := Step(w, e).demands[d].ended;
            && (closed == Some(Fine) <==> e == Finish(d, true) && me.receiver.Streaming?)
            && (closed == Some(CopyFailed) <==> e == Finish(d, false) && me.receiver.Streaming?)
            && (closed == Some(WentAway) <==> e == CloseOwn(d) && me.receiver == Left(Dropped))
            && (closed == Some(NoSupplier) <==> e == CloseOwn(d) && me.receiver == Left(TimedOut))
            && (closed == Some(OffsetMismatch) <==>
                  && e.Offer? && e.s < |w.suppliers| && w.suppliers[e.s].phase.Claimed?
                  && w.suppliers[e.s].claim == Some(d) && w.suppliers[e.s].offset != me.offset)
            && (closed == Some(Superseded) <==> e.Await? && e.key in w.waiting && w.waiting[e.key] == d)
            && (closed == Some(Outcome.Cancelled) <==>
                  e.CloseCancelled? && e.c < |w.cancellers| && w.cancellers[e.c] == Cancelling(d, false))
            && closed != Some(NoDemand)
  {
    RunKeepsInv(events);
    var w := Run(events);
    hide Run, DemandOk, SupplierOk;
    assert Filed(w);
  }

  /** What a receiver that has not returned comes back with, by every step that ends its
  wait: a body, or an error. */
  lemma ReturnsWhat(events: seq<Event>, e: Event, d: nat)
    requires d < |Run(events).demands|
    requires !Run(events).demands[d].receiver.Gone? && !Run(events).demands[d].receiver.Streaming?
    ensures var w := Run(events); var me := w.demands[d];
            var back := Step(w, e).demands[d].receiver;
            && (back.Streaming? <==> e == Take(d) && me.receiver.Waiting? && me.ready.Some?)
            && (back.Streaming? ==> me.ready == Some(back.from))
            && (back == Gone(Outcome.Cancelled) <==> e == CloseOwn(d) && me.receiver == Left(Dropped))
            && (back == Gone(NoSupplier) <==> (e == CloseOwn(d) && me.receiver == Left(TimedOut))
                                              || (e == SeeClosed(d) && me.receiver.Waiting? && me.ready.None?
                                                  && me.ended.Some?))
            && (back.Gone? ==> back.error in {Outcome.Cancelled, NoSupplier})
  {
    RunKeepsInv(events);
    var w := Run(events);
    hide Run, DemandOk, SupplierOk;
    assert Filed(w);
  }

  /** A supplier that handed over its body is told what its receiver's close said. */
  lemma TheCloseIsTold(events: seq<Event>, more: seq<Event>, s: nat, d: nat, out: Outcome)
    requires s < |Run(events).suppliers| && Run(events).suppliers[s].phase.Sent?
    requires Run(events).suppliers[s].claim == Some(d) && d < |Run(events).demands|
    requires Run(events).demands[d].ended == Some(out)
    ensures var w := Run(events + more);
            && s < |w.suppliers|
            && (w.suppliers[s].phase == Returned(out)
                || (w.suppliers[s].phase.Sent? && Enabled(w, Collect(s))
                    && Step(w, Collect(s)).suppliers[s].phase == Returned(out)))
  {
    hide Run, Step;
    RunKeepsInv(events);
    SentAgrees(Run(events), s, d);
    NothingIsTakenBack(events, more);
    RunKeepsInv(events + more);
    hide Inv;
    OutcomeOfClosed(Run(events + more), s, d, out);
  }

  lemma SentAgrees(w: World, s: nat, d: nat)
    requires Inv(w) && s < |w.suppliers| && w.suppliers[s].phase.Sent? && w.suppliers[s].claim == Some(d)
    ensures d < |w.demands| && w.suppliers[s].offset == w.demands[d].offset
  {
    assert SupplierOk(w, s) && DemandOk(w, d);
  }

  lemma OutcomeOfClosed(w: World, s: nat, d: nat, out: Outcome)
    requires Inv(w) && s < |w.suppliers| && w.suppliers[s].claim == Some(d) && d < |w.demands|
    requires w.demands[d].ended == Some(out) && (w.suppliers[s].phase.Sent? || w.suppliers[s].phase.Returned?)
    requires w.suppliers[s].offset == w.demands[d].offset
    ensures w.suppliers[s].phase == Returned(out)
            || (w.suppliers[s].phase.Sent? && Enabled(w, Collect(s))
                && Step(w, Collect(s)).suppliers[s].phase == Returned(out))
  {
    assert SupplierOk(w, s) && DemandOk(w, d);
  }

  /** The supplier of a body that is being streamed is told nil exactly when the receiver
  finishes with nil, and a failed copy otherwise, whatever else happens. */
  lemma FinishIsTold(events: seq<Event>, more: seq<Event>, d: nat, s: nat, fine: bool)
    requires d < |Run(events).demands| && Run(events).demands[d].receiver == Streaming(s)
    requires Run(events).demands[d].ended.None?
    ensures var w := Run(events + [Finish(d, fine)] + more);
            var out := if fine then Fine else CopyFailed;
            && s < |w.suppliers|
            && (w.suppliers[s].phase == Returned(out)
                || (w.suppliers[s].phase.Sent? && Enabled(w, Collect(s))
                    && Step(w, Collect(s)).suppliers[s].phase == Returned(out)))
  {
    RunKeepsInv(events);
    assert DemandOk(Run(events), d);
    ClosedWithWhat(events, Finish(d, fine), d);
    RunLast(events, Finish(d, fine));
    hide Run;
    TheCloseIsTold(events + [Finish(d, fine)], more, s, d, if fine then Fine else CopyFailed);
  }

  /** The supplier of a body that its receiver never took is told that the receiver went
  away when that dropped, and that there was no supplier when it timed out. */
  lemma GivingUpIsTold(events: seq<Event>, more: seq<Event>, d: nat, s: nat, why: Reason)
    requires d < |Run(events).demands| && Run(events).demands[d].receiver == Left(why)
    requires Run(events).demands[d].ended.None?
    requires s < |Run(events).suppliers| && Run(events).suppliers[s].phase.Sent?
    requires Run(events).suppliers[s].claim == Some(d)
    ensures var w := Run(events + [CloseOwn(d)] + more);
            var out := if why == Dropped then WentAway else NoSupplier;
            && s < |w.suppliers|
            && (w.suppliers[s].phase == Returned(out)
                || (w.suppliers[s].phase.Sent? && Enabled(w, Collect(s))
                    && Step(w, Collect(s)).suppliers[s].phase == Returned(out)))
  {
    RunKeepsInv(events);
    ClosedWithWhat(events, CloseOwn(d), d);
    RunLast(events, CloseOwn(d));
    hide Run;
    TheCloseIsTold(events + [CloseOwn(d)], more, s, d, if why == Dropped then WentAway else NoSupplier);
  }

  /** A supplier that finds nobody waiting is told so at once, and changes nothing else. */
  lemma NobodyWaits(events: seq<Event>, key: Key, offset: nat)
    requires key !in Run(events).waiting
    ensures var w := Run(events);
            Run(events + [Attach(key, offset)])
            == w.(suppliers := w.suppliers + [Supply(key, offset, None, Returned(NoDemand))])
  {
    RunKeepsInv(events);
    RunLast(events, Attach(key, offset));
    hide Run, DemandOk, SupplierOk;
  }

  /** A cancel releases the receiver that waits, with the error of an absent supplier. */
  lemma CancelReleases(events: seq<Event>, key: Key)
    requires var w := Run(events);
             key in w.waiting && w.waiting[key] < |w.demands| && w.demands[w.waiting[key]].receiver.Waiting?
    ensures var w := Run(events); var d, c := w.waiting[key], |w.cancellers|;
            var w' := Run(events + [Cancel(key)] + [CloseCancelled(c)] + [SeeClosed(d)]);
            && key !in w'.waiting && d < |w'.demands| && w'.cancellers == w.cancellers + [Cancelling(d, true)]
            && w'.demands[d].ended == Some(Outcome.Cancelled) && w'.demands[d].receiver == Gone(NoSupplier)
  {
    RunKeepsInv(events);
    var w := Run(events);
    var d, c := w.waiting[key], |w.cancellers|;
    assert DemandOk(w, d);
    hide Run, DemandOk, SupplierOk;
    RunLast(events, Cancel(key));
    RunLast(events + [Cancel(key)], CloseCancelled(c));
    RunLast(events + [Cancel(key)] + [CloseCancelled(c)], SeeClosed(d));
  }

  /** And so does a newer request for the same item. */
  lemma NewerReleases(events: seq<Event>, key: Key, offset: nat)
    requires var w := Run(events);
             key in w.waiting && w.waiting[key] < |w.demands| && w.demands[w.waiting[key]].receiver.Waiting?
    ensures var w := Run(events); var d := w.waiting[key];
            var w' := Run(events + [Await(key, offset)] + [SeeClosed(d)]);
            && d < |w'.demands| && w'.demands[d].ended == Some(Superseded) && w'.demands[d].receiver == Gone(NoSupplier)
            && key in w'.waiting && w'.waiting[key] == |w.demands| < |w'.demands|
            && w'.demands[|w.demands|] == NewDemand(key, offset)
  {
    RunKeepsInv(events);
    var w := Run(events);
    assert DemandOk(w, w.waiting[key]);
    hide Run, DemandOk, SupplierOk;
    RunLast(events, Await(key, offset));
    RunLast(events + [Await(key, offset)], SeeClosed(w.waiting[key]));
  }

  /** A run from the start in which a supplier is told nil. */
  lemma FineFromTheStart(key: Key, offset: nat) returns (events: seq<Event>)
    ensures events == [Await(key, offset)] + [Attach(key, offset)] + [Offer(0)] + [Take(0)] + [Finish(0, true)]
                      + [Collect(0)]
    ensures Run(events).suppliers == [Supply(key, offset, Some(0), Returned(Fine))]
  {
    var none: seq<Event> := [];
    var e1 := none + [Await(key, offset)];
    var e2 := e1 + [Attach(key, offset)];
    var e3 := e2 + [Offer(0)];
    var e4 := e3 + [Take(0)];
    var e5 := e4 + [Finish(0, true)];
    events := e5 + [Collect(0)];
    TwoStepsClaim(key, offset);
    RunLast(none, Await(key, offset));
    assert Run(none) == EMPTY;
    hide Run, Step;
    RunLast(e1, Attach(key, offset));
    RunLast(e2, Offer(0));
    RunLast(e3, Take(0));
    RunLast(e4, Finish(0, true));
    RunLast(e5, Collect(0));
    OfferedIsTaken(key, offset);
    TakenIsFinished(key, offset);
  }

  function OneStreaming(key: Key, offset: nat): World {
    World(map[], [NewDemand(key, offset).(taker := Supplier(0), receiver := Streaming(0))],
          [Supply(key, offset, Some(0), Sent)], [])
  }

  lemma OfferedIsTaken(key: Key, offset: nat)
    ensures var w := World(map[], [NewDemand(key, offset).(taker := Supplier(0))],
                           [Supply(key, offset, Some(0), Claimed)], []);
            Step(Step(w, Offer(0)), Take(0)) == OneStreaming(key, offset)
  {
  }

  lemma TakenIsFinished(key: Key, offset: nat)
    ensures Step(Step(OneStreaming(key, offset), Finish(0, true)), Collect(0)).suppliers
            == [Supply(key, offset, Some(0), Returned(Fine))]
  {
  }

  // ------------------------------------------------------------ in place

  /** The rendezvous. Each method is one atomic step of the interleavings above. */
  class Pipes {
    var waiting: map<Key, nat>
    var demands: seq<Demand>
    var suppliers: seq<Supply>
    var cancellers: seq<Cancelling>

    ghost function View(): World
      reads this
    {
      World(waiting, demands, suppliers, cancellers)
    }

    constructor ()
      ensures View() == EMPTY
    {
      waiting, demands, suppliers, cancellers := map[], [], [], [];
    }

    method Close(d: nat, out: Outcome)
      requires d < |demands|
      modifies this`demands
      ensures demands == old(demands)[d := ClosedWith(old(demands)[d], out)]
    {
      if demands[d].ended.None? {
        if demands[d].done.None? {
          demands := demands[d := demands[d].(done := Some(out))];
        }
        demands := demands[d := demands[d].(ended := Some(out))];
      }
    }

    /** The locked half of `Await`. */
    method Register(key: Key, offset: nat) returns (d: nat)
      requires Filed(View())
      modifies this
      ensures View() == Step(old(View()), Await(key, offset))
      ensures d < |demands| && waiting[key] == d && demands[d] == NewDemand(key, offset)
    {
      if key in waiting {
        var existing := waiting[key];
        Close(existing, Superseded);
        demands := demands[existing := demands[existing].(taker := Newer)];
      }
      d := |demands|;
      demands := demands + [NewDemand(key, offset)];
      waiting := waiting[key := d];
    }

    /** The select of `Await` when `ready` has a body or is closed. */
    method Receive(d: nat) returns (body: Option<nat>)
      requires Filed(View())
      requires Enabled(View(), Take(d)) || Enabled(View(), SeeClosed(d))
      modifies this`demands
      ensures View() == Step(old(View()), if body.Some? then Take(d) else SeeClosed(d))
      ensures body == old(demands[d].ready)
    {
      body := demands[d].ready;
      if body.Some? {
        demands := demands[d := demands[d].(receiver := Streaming(body.value), ready := None)];
      } else {
        demands := demands[d := demands[d].(receiver := Gone(NoSupplier))];
      }
    }

    method Abandon(d: nat, why: Reason)
      requires Filed(View()) && Enabled(View(), GiveUp(d, why))
      modifies this`demands
      ensures View() == Step(old(View()), GiveUp(d, why))
    {
      demands := demands[d := demands[d].(receiver := Leaving(why))];
    }

    method RemoveIfCurrent(d: nat)
      requires Filed(View()) && Enabled(View(), Remove(d))
      modifies this`waiting, this`demands
      ensures View() == Step(old(View()), Remove(d))
    {
      var me := demands[d];
      if me.key in waiting && waiting[me.key] == d {
        waiting := waiting - {me.key};
        demands := demands[d := demands[d].(taker := Itself)];
      }
      demands := demands[d := demands[d].(receiver := Left(me.receiver.why))];
    }

    method Release(d: nat) returns (error: Outcome)
      requires Filed(View()) && Enabled(View(), CloseOwn(d))
      modifies this`demands
      ensures View() == Step(old(View()), CloseOwn(d))
      ensures error == Returns(old(demands[d]).receiver.why)
    {
      var why := demands[d].receiver.why;
      Close(d, ClosesWith(why));
      error := Returns(why);
      demands := demands[d := demands[d].(receiver := Gone(error))];
    }

    /** The function a receiver calls once its copy ended. */
    method Finished(d: nat, fine: bool)
      requires Filed(View()) && Enabled(View(), Finish(d, fine))
      modifies this`demands
      ensures View() == Step(old(View()), Finish(d, fine))
    {
      Close(d, if fine then Fine else CopyFailed);
    }

    /** The locked half of `Supply`. */
    method Lookup(key: Key, offset: nat) returns (s: nat)
      requires Filed(View())
      modifies this
      ensures View() == Step(old(View()), Attach(key, offset))
      ensures s == |old(suppliers)|
    {
      s := |suppliers|;
      if key in waiting {
        var d := waiting[key];
        waiting := waiting - {key};
        demands := demands[d := demands[d].(taker := Supplier(s))];
        suppliers := suppliers + [Supply(key, offset, Some(d), Claimed)];
      } else {
        suppliers := suppliers + [Supply(key, offset, None, Returned(NoDemand))];
      }
    }

    method HandOver(s: nat)
      requires Filed(View()) && Enabled(View(), Offer(s))
      modifies this`demands, this`suppliers
      ensures View() == Step(old(View()), Offer(s))
    {
      var me := suppliers[s];
      var d := me.claim.value;
      if me.offset != demands[d].offset {
        Close(d, OffsetMismatch);
        suppliers := suppliers[s := me.(phase := Returned(OffsetMismatch))];
      } else if demands[d].ended.Some? {
        suppliers := suppliers[s := me.(phase := Panicked)];
      } else if demands[d].ready.None? {
        demands := demands[d := demands[d].(ready := Some(s))];
        suppliers := suppliers[s := me.(phase := Sent)];
      } else {
        suppliers := suppliers[s := me.(phase := Returned(NoDemand))];
      }
    }

    method AwaitOutcome(s: nat) returns (out: Outcome)
      requires Filed(View()) && Enabled(View(), Collect(s))
      modifies this`demands, this`suppliers
      ensures View() == Step(old(View()), Collect(s))
      ensures suppliers[s].phase == Returned(out)
    {
      var d := suppliers[s].claim.value;
      out := demands[d].done.value;
      demands := demands[d := demands[d].(done := None)];
      suppliers := suppliers[s := suppliers[s].(phase := Returned(out))];
    }

    method CancelLookup(key: Key)
      requires Filed(View())
      modifies this
      ensures View() == Step(old(View()), Cancel(key))
    {
      if key in waiting {
        var d := waiting[key];
        waiting := waiting - {key};
        demands := demands[d := demands[d].(taker := Canceller(|cancellers|))];
        cancellers := cancellers + [Cancelling(d, false)];
      }
    }

    method CancelClose(c: nat)
      requires Filed(View()) && Enabled(View(), CloseCancelled(c))
      modifies this`demands, this`cancellers
      ensures View() == Step(old(View()), CloseCancelled(c))
    {
      Close(cancellers[c].claim, Cancelled);
      cancellers := cancellers[c := cancellers[c].(closed := true)];
    }

    /** What a waiting receiver asks for: that of a demand nobody has closed. */
    method PendingOffset(key: Key) returns (offset: Option<nat>)
      requires Inv(View())
      ensures offset.Some? <==> key in waiting
      ensures offset.Some? ==>
                exists d :: 0 <= d < |demands| && demands[d].key == key && demands[d].offset == offset.value
                            && demands[d].ended.None? && demands[d].taker.Nobody?
    {
      if key in waiting {
        offset := Some(demands[waiting[key]].offset);
        assert DemandOk(View(), waiting[key]);
      } else {
        offset := None;
      }
    }
  }
}
