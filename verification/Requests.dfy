/**
Sealed requests and their replies in flight, and what the single retry of a refused
request can come to.

A run interleaves any number of pages of one device, each with any number of requests
under way, with the server and its restarts. `taken`, `given` and `heard` are kept by
the model alone: which counters the server took, which replies it gave, and in which
order the pages opened them.
*/
module Requests {
  import opened Common
  import Counters

  /** A page: the number of its envelope, the send counter, and the highest counter of a
  reply that this envelope has opened. */
  datatype Page = Page(envelope: nat, counter: nat, received: nat, receivedAny: bool)

  /** The server's envelope for the device. `epoch` counts the restarts. */
  datatype Peer = Peer(epoch: nat, high: nat, seenAny: bool, sent: nat)

  /** A request may have a sealed body, and its reply may be empty. */
  datatype Request = Request(page: nat, body: bool, replies: bool)

  /** How far one try of a request has come: on its way, refused as a replay, being acted
  on by the server of an epoch, answered without a sealed reply (an error among them), or
  with one. */
  datatype Try = Travelling(counter: nat) | Rejected | Acting(epoch: nat) | Plain | Answered(reply: nat)

  datatype Stage = Waiting | Replayed | Done

  datatype Call = Call(request: Request, first: Try, second: Option<Try>, stage: Stage)

  datatype Taken = Taken(epoch: nat, counter: nat)

  /** A sealed reply: its counter, and the call and the try it belongs to. */
  datatype Reply = Reply(epoch: nat, counter: nat, call: nat, again: bool)

  /** A reply that an envelope of a page was given to open. */
  datatype Hearing = Hearing(page: nat, envelope: nat, reply: nat)

  datatype World = World(stored: Option<int>, pages: seq<Page>, calls: seq<Call>, peer: Peer,
                         taken: seq<Taken>, given: seq<Reply>, heard: seq<Hearing>)

  datatype Event =
    | Load(persists: bool)
    | Send(request: Request)
    | Arrive(call: nat)
    | Answer(call: nat)
    | Hear(call: nat)
    | Again(call: nat, persists: bool)
    | Restart

  function Fresh(stored: Option<int>): World {
    World(stored, [], [], Peer(0, 0, false, 0), [], [], [])
  }

  // ------------------------------------------------------------------- steps

  /** The state of a page with a new envelope. */
  function NewPage(stored: Option<int>, envelope: nat): Page {
    Page(envelope, Counters.Start(stored), 0, false)
  }

  function Claimed(stored: Option<int>, persists: bool): Option<int> {
    if persists then Some(Counters.Start(stored) + Counters.COUNTER_BLOCK) else stored
  }

  /** Sealing a request, if it has a body. */
  function Sealed(p: Page, r: Request): Page {
    if r.body then p.(counter := p.counter + 1) else p
  }

  predicate LooksOld(p: Page, counter: nat) {
    p.receivedAny && counter <= p.received
  }

  function Opened(p: Page, counter: nat): Page {
    if LooksOld(p, counter) then p else p.(received := counter, receivedAny := true)
  }

  predicate Stale(peer: Peer, r: Request, counter: nat) {
    r.body && peer.seenAny && counter <= peer.high
  }

  function Checked(peer: Peer, r: Request, counter: nat): Peer {
    if r.body && !Stale(peer, r, counter) then peer.(high := counter, seenAny := true) else peer
  }

  /** The try that is under way. */
  function Current(c: Call): Try {
    if c.second.Some? then c.second.value else c.first
  }

  function Moved(c: Call, t: Try): Call {
    if c.second.Some? then c.(second := Some(t)) else c.(first := t)
  }

  /** What a page does about a replay: the first is answered by a retry. */
  function AfterReplay(c: Call): Call {
    c.(stage := if c.second.None? then Replayed else Done)
  }

  predicate Enabled(w: World, e: Event) {
    match e
    case Load(_) => true
    case Send(r) => r.page < |w.pages|
    case Restart => true
    case Arrive(k) => k < |w.calls| && Current(w.calls[k]).Travelling?
    case Answer(k) => k < |w.calls| && Current(w.calls[k]) == Acting(w.peer.epoch)
    case Hear(k) =>
      k < |w.calls| && w.calls[k].stage.Waiting? && w.calls[k].request.page < |w.pages|
      && (match Current(w.calls[k])
         case Travelling(_) => false
         case Acting(_) => false
         case Answered(r) => r < |w.given|
         case _ => true)
    case Again(k, _) => k < |w.calls| && w.calls[k].stage.Replayed? && w.calls[k].request.page < |w.pages|
  }

  function SetCall(w: World, k: nat, c: Call): World
    requires k < |w.calls|
  {
    w.(calls := w.calls[k := c])
  }

  /** The server checks the counter of a body and acts, or refuses. */
  function Arrived(w: World, k: nat): World
    requires Enabled(w, Arrive(k))
  {
    var c := w.calls[k];
    var counter := Current(c).counter;
    if Stale(w.peer, c.request, counter) then SetCall(w, k, Moved(c, Rejected))
    else
      SetCall(w, k, Moved(c, Acting(w.peer.epoch))).(
        peer := Checked(w.peer, c.request, counter),
        taken := if c.request.body then w.taken + [Taken(w.peer.epoch, counter)] else w.taken)
  }

  /** The server seals its reply, if it has one. */
  function Replied(w: World, k: nat): World
    requires Enabled(w, Answer(k))
  {
    var c := w.calls[k];
    if !c.request.replies then SetCall(w, k, Moved(c, Plain))
    else
      SetCall(w, k, Moved(c, Answered(|w.given|))).(
        peer := w.peer.(sent := w.peer.sent + 1),
        given := w.given + [Reply(w.peer.epoch, w.peer.sent + 1, k, c.second.Some?)])
  }

  /** The page gets the answer and opens it with the envelope it has by then. */
  function HeardFrom(w: World, k: nat): World
    requires Enabled(w, Hear(k))
  {
    var c := w.calls[k];
    var page := c.request.page;
    match Current(c)
    case Rejected => SetCall(w, k, AfterReplay(c))
    case Answered(r) =>
      var p, counter := w.pages[page], w.given[r].counter;
      SetCall(w, k, if LooksOld(p, counter) then AfterReplay(c) else c.(stage := Done)).(
        pages := w.pages[page := Opened(p, counter)],
        heard := w.heard + [Hearing(page, p.envelope, r)])
    case _ => SetCall(w, k, c.(stage := Done))
  }

  /** The retry: a new envelope for the page, and the request sealed with it. */
  function SentAgain(w: World, k: nat, persists: bool): World
    requires Enabled(w, Again(k, persists))
  {
    var c := w.calls[k];
    var page := c.request.page;
    var p := Sealed(NewPage(w.stored, w.pages[page].envelope + 1), c.request);
    SetCall(w, k, c.(second := Some(Travelling(p.counter)), stage := Waiting)).(
      pages := w.pages[page := p], stored := Claimed(w.stored, persists))
  }

  /** One step; an event that cannot happen changes nothing. */
  function Step(w: World, e: Event): World {
    if !Enabled(w, e) then w
    else match e
      case Load(persists) =>
        w.(pages := w.pages + [NewPage(w.stored, 0)], stored := Claimed(w.stored, persists))
      case Send(r) =>
        var p := Sealed(w.pages[r.page], r);
        w.(pages := w.pages[r.page := p], calls := w.calls + [Call(r, Travelling(p.counter), None, Waiting)])
      case Arrive(k) => Arrived(w, k)
      case Answer(k) => Replied(w, k)
      case Hear(k) => HeardFrom(w, k)
      case Again(k, persists) => SentAgain(w, k, persists)
      case Restart => w.(peer := Peer(w.peer.epoch + 1, 0, false, 0))
  }

  function Run(w: World, events: seq<Event>): World {
    if |events| == 0 then w else Step(Run(w, events[..|events| - 1]), events[|events| - 1])
  }

  // -------------------------------------------------------------- what is said

  predicate ActedOn(t: Try) {
    t.Acting? || t.Plain? || t.Answered?
  }

  /** The server acted on both tries. */
  predicate ActedTwice(c: Call) {
    ActedOn(c.first) && c.second.Some? && ActedOn(c.second.value)
  }

  /** The page took the first try for a replay. */
  predicate Retried(c: Call) {
    c.second.Some? || c.stage.Replayed?
  }

  /** One envelope was given both replies, and the counter of `x` is at least as high. */
  ghost predicate Outruns(given: seq<Reply>, x: Hearing, y: Hearing)
    requires x.reply < |given| && y.reply < |given|
  {
    x.page == y.page && x.envelope == y.envelope && given[x.reply].counter >= given[y.reply].counter
  }

  /** The i-th reply that was opened comes after one with a counter at least as high,
  opened by the same envelope. */
  ghost predicate Overtaken(w: World, i: nat)
    requires i < |w.heard| && Pointed(w)
  {
    exists j: nat :: j < i && Outruns(w.given, w.heard[j], w.heard[i])
  }

  /** The i-th reply that was opened answers the first try of this call. */
  predicate AnswersFirst(w: World, i: nat, k: nat)
    requires i < |w.heard| && w.heard[i].reply < |w.given|
  {
    w.given[w.heard[i].reply].call == k && !w.given[w.heard[i].reply].again
  }

  // --------------------------------------------------------------- invariant

  ghost predicate Pointed(w: World) {
    forall i :: 0 <= i < |w.heard| ==> w.heard[i].reply < |w.given|
  }

  function TryOf(c: Call, again: bool): Option<Try> {
    if again then c.second else Some(c.first)
  }

  /** Whether the page has had the answer to this try. */
  predicate Had(c: Call, again: bool) {
    if again then c.second.Some? && !c.stage.Waiting? else Retried(c) || c.stage.Done?
  }

  ghost predicate CallOk(w: World, k: nat)
    requires k < |w.calls|
  {
    var c := w.calls[k];
    && c.request.page < |w.pages|
    && (c.stage.Replayed? ==> c.second.None?)
    && (c.second.None? && c.stage.Done? ==> c.first.Plain? || c.first.Answered?)
    && (c.first.Answered? ==> c.request.replies)
    && (Retried(c) && !c.first.Rejected? ==>
          c.first.Answered? && exists i :: 0 <= i < |w.heard| && w.heard[i].reply == c.first.reply)
    && (c.first.Answered? ==> Names(w, c.first.reply, k, false))
    && (c.second.Some? && c.second.value.Answered? ==> Names(w, c.second.value.reply, k, true))
  }

  predicate Names(w: World, r: nat, k: nat, again: bool) {
    r < |w.given| && w.given[r].call == k && w.given[r].again == again
  }

  ghost predicate ReplyOk(w: World, r: nat)
    requires r < |w.given|
  {
    var g := w.given[r];
    && g.call < |w.calls| && TryOf(w.calls[g.call], g.again) == Some(Answered(r))
    && 0 < g.counter && g.epoch <= w.peer.epoch && (g.epoch == w.peer.epoch ==> g.counter <= w.peer.sent)
  }

  /** Within one epoch the counters of the replies rise. */
  ghost predicate Rising(given: seq<Reply>) {
    forall r, s :: 0 <= r < s < |given| ==>
      given[r].epoch <= given[s].epoch && (given[r].epoch == given[s].epoch ==> given[r].counter < given[s].counter)
  }

  ghost predicate HeardOk(w: World, i: nat)
    requires i < |w.heard| && Pointed(w)
  {
    var g := w.given[w.heard[i].reply];
    && g.call < |w.calls| && w.calls[g.call].request.page == w.heard[i].page < |w.pages|
    && w.heard[i].envelope <= w.pages[w.heard[i].page].envelope
    && Had(w.calls[g.call], g.again)
    && (!g.again ==> (Retried(w.calls[g.call]) <==> Overtaken(w, i)))
  }

  /** The i-th reply was opened by the envelope that the page has now. */
  predicate ByCurrent(w: World, i: nat, p: nat)
    requires i < |w.heard| && p < |w.pages|
  {
    w.heard[i].page == p && w.heard[i].envelope == w.pages[p].envelope
  }

  /** A page remembers the highest counter of what its envelope was given to open. */
  ghost predicate PageOk(w: World, p: nat)
    requires p < |w.pages| && Pointed(w)
  {
    && (forall i :: 0 <= i < |w.heard| && ByCurrent(w, i, p) ==>
          w.pages[p].receivedAny && w.given[w.heard[i].reply].counter <= w.pages[p].received)
    && (w.pages[p].receivedAny ==>
          exists i :: 0 <= i < |w.heard| && ByCurrent(w, i, p)
                      && w.given[w.heard[i].reply].counter == w.pages[p].received)
  }

  ghost predicate HeardOnce(heard: seq<Hearing>) {
    forall i, j :: 0 <= i < j < |heard| ==> heard[i].reply != heard[j].reply
  }

  /** The server remembers the highest counter it took since it was started. */
  ghost predicate PeerOk(w: World) {
    && (forall t <- w.taken :: t.epoch <= w.peer.epoch
                               && (t.epoch == w.peer.epoch ==> w.peer.seenAny && t.counter <= w.peer.high))
    && (w.peer.seenAny ==> Taken(w.peer.epoch, w.peer.high) in w.taken)
  }

  ghost predicate Inv(w: World) {
    && Pointed(w) && Rising(w.given) && HeardOnce(w.heard) && PeerOk(w)
    && (forall k :: 0 <= k < |w.calls| ==> CallOk(w, k))
    && (forall r :: 0 <= r < |w.given| ==> ReplyOk(w, r))
    && (forall i :: 0 <= i < |w.heard| ==> HeardOk(w, i))
    && (forall p :: 0 <= p < |w.pages| ==> PageOk(w, p))
  }

  // ------------------------------------------------------------ preservation

  /** Logs that only grow leave what was overtaken as it was. */
  lemma OvertakenStays(w: World, w': World, i: nat)
    requires i < |w.heard| && Pointed(w) && Pointed(w') && w.heard <= w'.heard && w.given <= w'.given
    ensures Overtaken(w, i) <==> Overtaken(w', i)
  {
    forall j: nat | j < i
      ensures Outruns(w.given, w.heard[j], w.heard[i]) <==> Outruns(w'.given, w'.heard[j], w'.heard[i])
    {
    }
  }

  /** How a call goes on: answers stay, and so does what the page made of them. */
  ghost predicate Follows(c: Call, c': Call) {
    && c'.request == c.request
    && (Had(c, false) ==> Had(c', false) && (Retried(c) <==> Retried(c')))
    && (Had(c, true) ==> Had(c', true))
    && (c.first.Answered? ==> c'.first == c.first)
    && (c.second.Some? && c.second.value.Answered? ==> c'.second == c.second)
  }

  /** How the world goes on. */
  ghost predicate Extends(w: World, w': World) {
    && w.given <= w'.given && w.heard <= w'.heard
    && |w.calls| <= |w'.calls| && |w.pages| <= |w'.pages|
    && (forall k :: 0 <= k < |w.calls| ==> Follows(w.calls[k], w'.calls[k]))
    && (forall p :: 0 <= p < |w.pages| ==> w.pages[p].envelope <= w'.pages[p].envelope)
    && (w.peer.epoch < w'.peer.epoch || (w.peer.epoch == w'.peer.epoch && w.peer.sent <= w'.peer.sent))
  }

  lemma StepExtends(w: World, e: Event)
    requires forall k :: 0 <= k < |w.calls| ==> CallOk(w, k)
    ensures Extends(w, Step(w, e))
  {
    hide Names, Stale, Claimed, LooksOld;
    if e.Again? && Enabled(w, e) { assert CallOk(w, e.call); }
  }

  lemma ReplyStays(w: World, w': World, r: nat)
    requires r < |w.given| && ReplyOk(w, r) && Extends(w, w')
    ensures ReplyOk(w', r)
  {
    assert Follows(w.calls[w.given[r].call], w'.calls[w.given[r].call]);
  }

  lemma HeardStays(w: World, w': World, i: nat)
    requires i < |w.heard| && Pointed(w) && Pointed(w') && HeardOk(w, i) && Extends(w, w')
    ensures HeardOk(w', i)
  {
    assert Follows(w.calls[w.given[w.heard[i].reply].call], w'.calls[w.given[w.heard[i].reply].call]);
    OvertakenStays(w, w', i);
    hide Overtaken;
  }

  /** A call that did not change, or only within its current try. */
  lemma CallStays(w: World, w': World, k: nat)
    requires k < |w.calls| && CallOk(w, k) && Extends(w, w') && w'.calls[k] == w.calls[k]
    ensures CallOk(w', k)
  {
    var c := w.calls[k];
    if Retried(c) && !c.first.Rejected? {
      var i :| 0 <= i < |w.heard| && w.heard[i].reply == c.first.reply;
      assert w'.heard[i].reply == c.first.reply;
    }
  }

  lemma PageStays(w: World, w': World, p: nat)
    requires p < |w.pages| && Pointed(w) && Pointed(w') && PageOk(w, p) && Extends(w, w') && w'.heard == w.heard
    requires w'.pages[p].(counter := 0) == w.pages[p].(counter := 0)
    ensures PageOk(w', p)
  {
    assert forall i :: 0 <= i < |w.heard| ==> (ByCurrent(w, i, p) <==> ByCurrent(w', i, p));
  }

  /** What every step but a hearing and an answer leaves: only one call moves, in its
  current try, and only one page changes. */
  lemma MostKeepsInv(w: World, e: Event)
    requires Inv(w) && Enabled(w, e) && !e.Hear? && !e.Answer?
    ensures Inv(Step(w, e))
  {
    var w' := Step(w, e);
    StepExtends(w, e);
    LogsStay(w, e);
    forall r | 0 <= r < |w'.given| ensures ReplyOk(w', r) { ReplyStays(w, w', r); }
    forall i | 0 <= i < |w'.heard| ensures HeardOk(w', i) { HeardStays(w, w', i); }
    forall k | 0 <= k < |w'.calls| ensures CallOk(w', k) { CallOfStep(w, e, k); }
    forall p | 0 <= p < |w'.pages| ensures PageOk(w', p) { PageOfStep(w, e, p); }
    hide Step, CallOk, PageOk, HeardOk, ReplyOk, Extends;
  }

  lemma LogsStay(w: World, e: Event)
    requires PeerOk(w) && !e.Hear? && !e.Answer?
    ensures var w' := Step(w, e); w'.given == w.given && w'.heard == w.heard && PeerOk(w')
  {
  }

  lemma CallOfStep(w: World, e: Event, k: nat)
    requires Inv(w) && !e.Hear? && !e.Answer? && k < |Step(w, e).calls|
    ensures CallOk(Step(w, e), k)
  {
    var w' := Step(w, e);
    StepExtends(w, e);
    if k < |w.calls| && w'.calls[k] == w.calls[k] {
      CallStays(w, w', k);
    } else if k < |w.calls| {
      assert CallOk(w, k);
    }
  }

  lemma PageOfStep(w: World, e: Event, p: nat)
    requires Inv(w) && !e.Hear? && !e.Answer? && p < |Step(w, e).pages|
    ensures Pointed(Step(w, e)) && PageOk(Step(w, e), p)
  {
    var w' := Step(w, e);
    StepExtends(w, e);
    if p < |w.pages| && w'.pages[p].(counter := 0) == w.pages[p].(counter := 0) {
      PageStays(w, w', p);
    } else {
      forall i | 0 <= i < |w.heard| ensures !ByCurrent(w', i, p) { assert HeardOk(w, i); }
    }
  }

  lemma AnswerKeepsInv(w: World, k: nat)
    requires Inv(w) && Enabled(w, Answer(k))
    ensures Inv(Step(w, Answer(k)))
  {
    var w' := Step(w, Answer(k));
    StepExtends(w, Answer(k));
    GivenRises(w, k);
    forall x | 0 <= x < |w'.calls| ensures CallOk(w', x) { CallAfterAnswer(w, k, x); }
    forall i | 0 <= i < |w'.heard| ensures HeardOk(w', i) { HeardStays(w, w', i); }
    forall p | 0 <= p < |w'.pages| ensures PageOk(w', p) { PageStays(w, w', p); }
    hide Step, CallOk, PageOk, HeardOk, ReplyOk, Extends;
  }

  lemma GivenRises(w: World, k: nat)
    requires Inv(w) && Enabled(w, Answer(k))
    ensures var w' := Step(w, Answer(k));
            && Pointed(w') && Rising(w'.given) && PeerOk(w') && w'.heard == w.heard
            && forall r :: 0 <= r < |w'.given| ==> ReplyOk(w', r)
  {
    var w' := Step(w, Answer(k));
    StepExtends(w, Answer(k));
    forall r | 0 <= r < |w'.given| ensures ReplyOk(w', r) {
      if r < |w.given| { ReplyStays(w, w', r); }
    }
    forall r | 0 <= r < |w.given|
      ensures w.given[r].epoch <= w.peer.epoch
              && (w.given[r].epoch == w.peer.epoch ==> w.given[r].counter <= w.peer.sent)
    {
      assert ReplyOk(w, r);
    }
  }

  lemma CallAfterAnswer(w: World, k: nat, x: nat)
    requires Inv(w) && Enabled(w, Answer(k)) && x < |w.calls|
    ensures CallOk(Step(w, Answer(k)), x)
  {
    StepExtends(w, Answer(k));
    assert CallOk(w, x);
    if x != k { CallStays(w, Step(w, Answer(k)), x); }
  }

  lemma HearKeepsInv(w: World, k: nat)
    requires Inv(w) && Enabled(w, Hear(k))
    ensures Inv(Step(w, Hear(k)))
  {
    var w' := Step(w, Hear(k));
    StepExtends(w, Hear(k));
    HearsOnce(w, k);
    forall r | 0 <= r < |w'.given| ensures ReplyOk(w', r) { ReplyStays(w, w', r); }
    forall x | 0 <= x < |w'.calls| ensures CallOk(w', x) { CallAfterHearing(w, k, x); }
    forall i | 0 <= i < |w'.heard| ensures HeardOk(w', i) {
      if i < |w.heard| { HeardStays(w, w', i); } else { ReplayExactlyWhen(w, k); }
    }
    forall p | 0 <= p < |w'.pages| ensures PageOk(w', p) { PageAfterHearing(w, k, p); }
    hide Step, CallOk, PageOk, HeardOk, ReplyOk, Extends;
  }

  lemma HearsOnce(w: World, k: nat)
    requires Inv(w) && Enabled(w, Hear(k))
    ensures var w' := Step(w, Hear(k)); Pointed(w') && HeardOnce(w'.heard) && w'.given == w.given && PeerOk(w')
  {
    var c := w.calls[k];
    assert CallOk(w, k);
    if Current(c).Answered? {
      forall i | 0 <= i < |w.heard| ensures w.heard[i].reply != Current(c).reply {
        assert HeardOk(w, i);
      }
    }
  }

  lemma CallAfterHearing(w: World, k: nat, x: nat)
    requires Inv(w) && Enabled(w, Hear(k)) && x < |w.calls|
    ensures CallOk(Step(w, Hear(k)), x)
  {
    var w' := Step(w, Hear(k));
    StepExtends(w, Hear(k));
    assert CallOk(w, x);
    if x != k {
      CallStays(w, w', x);
    } else if Retried(w.calls[k]) && !w.calls[k].first.Rejected? {
      var i :| 0 <= i < |w.heard| && w.heard[i].reply == w.calls[k].first.reply;
      assert w'.heard[i].reply == w.calls[k].first.reply;
    } else if Current(w.calls[k]).Answered? {
      assert w'.heard[|w.heard|].reply == Current(w.calls[k]).reply;
    }
  }

  /** A page takes a reply for a replay exactly when its envelope was given one with a
  counter at least as high before. */
  lemma ReplayExactlyWhen(w: World, k: nat)
    requires Inv(w) && Enabled(w, Hear(k)) && Current(w.calls[k]).Answered?
    ensures var w' := Step(w, Hear(k));
            && Pointed(w') && |w'.heard| == |w.heard| + 1
            && (LooksOld(w.pages[w.calls[k].request.page], w.given[Current(w.calls[k]).reply].counter)
                <==> Overtaken(w', |w.heard|))
            && HeardOk(w', |w.heard|)
  {
    var w', n, c := Step(w, Hear(k)), |w.heard|, w.calls[k];
    assert CallOk(w, k) && PageOk(w, c.request.page);
    if LooksOld(w.pages[c.request.page], w.given[Current(c).reply].counter) {
      var j :| 0 <= j < n && ByCurrent(w, j, c.request.page)
               && w.given[w.heard[j].reply].counter == w.pages[c.request.page].received;
      assert Outruns(w'.given, w'.heard[j], w'.heard[n]);
    } else {
      forall j: nat | j < n ensures !Outruns(w'.given, w'.heard[j], w'.heard[n]) {
        assert ByCurrent(w, j, c.request.page) ==>
            w.given[w.heard[j].reply].counter <= w.pages[c.request.page].received;
      }
    }
  }

  lemma PageAfterHearing(w: World, k: nat, p: nat)
    requires Inv(w) && Enabled(w, Hear(k)) && p < |w.pages|
    ensures Pointed(Step(w, Hear(k))) && PageOk(Step(w, Hear(k)), p)
  {
    var w', n := Step(w, Hear(k)), |w.heard|;
    assert PageOk(w, p);
    forall i | 0 <= i < n ensures w'.heard[i] == w.heard[i] && (ByCurrent(w, i, p) <==> ByCurrent(w', i, p)) {
    }
    if w.pages[p].receivedAny {
      var i :| 0 <= i < n && ByCurrent(w, i, p) && w.given[w.heard[i].reply].counter == w.pages[p].received;
      assert ByCurrent(w', i, p);
    }
    if w'.heard != w.heard && p == w.calls[k].request.page {
      assert ByCurrent(w', n, p);
    }
  }

  lemma FreshIsOk(stored: Option<int>)
    ensures Inv(Fresh(stored))
  {
  }

  lemma {:induction false} RunKeepsInv(stored: Option<int>, events: seq<Event>)
    ensures Inv(Run(Fresh(stored), events))
  {
    hide Inv, Step;
    if |events| == 0 {
      FreshIsOk(stored);
    } else {
      RunKeepsInv(stored, events[..|events| - 1]);
      StepKeepsInv(Run(Fresh(stored), events[..|events| - 1]), events[|events| - 1]);
    }
  }

  /** Every step of pages, network and server keeps the invariant. */
  lemma StepKeepsInv(w: World, e: Event)
    requires Inv(w)
    ensures Inv(Step(w, e))
  {
    hide Inv;
    if Enabled(w, e) {
      match e
      case Hear(k) => HearKeepsInv(w, k);
      case Answer(k) => AnswerKeepsInv(w, k);
      case _ => MostKeepsInv(w, e);
    }
  }

  // ------------------------------------------------------------ main results

  /** A request is retried exactly when the page was told that the server refused it, or
  opened its reply after one with a counter at least as high by the same envelope. */
  lemma RetriedExactlyWhen(stored: Option<int>, events: seq<Event>, k: nat)
    requires k < |Run(Fresh(stored), events).calls|
    ensures var w := Run(Fresh(stored), events);
            && Pointed(w)
            && (Retried(w.calls[k]) <==>
                  || (w.calls[k].first.Rejected? && Had(w.calls[k], false))
                  || exists i :: 0 <= i < |w.heard| && AnswersFirst(w, i, k) && Overtaken(w, i))
  {
    RunKeepsInv(stored, events);
    var w := Run(Fresh(stored), events);
    hide Run, Overtaken;
    assert CallOk(w, k);
    if Retried(w.calls[k]) && !w.calls[k].first.Rejected? {
      var i :| 0 <= i < |w.heard| && w.heard[i].reply == w.calls[k].first.reply;
      assert HeardOk(w, i) && AnswersFirst(w, i, k);
    }
    forall i | 0 <= i < |w.heard| && AnswersFirst(w, i, k) && Overtaken(w, i) ensures Retried(w.calls[k]) {
      assert HeardOk(w, i);
    }
  }

  /** A request is acted on twice exactly when its reply was opened after one with a
  counter at least as high had been opened by the same envelope, and the retry got through. */
  lemma ActedTwiceExactlyWhen(stored: Option<int>, events: seq<Event>, k: nat)
    requires k < |Run(Fresh(stored), events).calls|
    ensures var w := Run(Fresh(stored), events); var c := w.calls[k];
            && Pointed(w)
            && (ActedTwice(c) <==>
                  && (exists i :: 0 <= i < |w.heard| && AnswersFirst(w, i, k) && Overtaken(w, i))
                  && c.second.Some? && ActedOn(c.second.value))
  {
    RunKeepsInv(stored, events);
    RetriedExactlyWhen(stored, events, k);
    var w := Run(Fresh(stored), events);
    hide Run, Overtaken;
    forall i | 0 <= i < |w.heard| && AnswersFirst(w, i, k) ensures ActedOn(w.calls[k].first) {
      assert ReplyOk(w, w.heard[i].reply);
    }
  }

  /** A request whose reply is empty is acted on at most once, and an answer without
  content ends it. */
  lemma NoReplyNoRetry(stored: Option<int>, events: seq<Event>, k: nat)
    requires k < |Run(Fresh(stored), events).calls|
    ensures var w := Run(Fresh(stored), events); var c := w.calls[k];
            && (!c.request.replies ==> !ActedTwice(c))
            && (c.first.Plain? ==> !Retried(c))
            && (Current(c).Plain? && c.stage.Waiting? ==> Step(w, Hear(k)) == SetCall(w, k, c.(stage := Done)))
  {
    RunKeepsInv(stored, events);
    hide Run;
    assert CallOk(Run(Fresh(stored), events), k);
  }

  /** Who can go on: the page hears every answer that has come, and a retry follows every
  replay that it was told of. */
  lemma NothingIsStuck(stored: Option<int>, events: seq<Event>, k: nat, persists: bool)
    requires k < |Run(Fresh(stored), events).calls|
    ensures var w := Run(Fresh(stored), events); var c := w.calls[k];
            && (Enabled(w, Hear(k)) <==>
                  c.stage.Waiting? && (Current(c).Rejected? || Current(c).Plain? || Current(c).Answered?))
            && (Enabled(w, Again(k, persists)) <==> c.stage.Replayed?)
            && (Current(c).Acting? && Current(c).epoch == w.peer.epoch ==>
                  (Current(Step(w, Answer(k)).calls[k]).Answered? <==> c.request.replies))
            && (Current(c).Acting? && Current(c).epoch == w.peer.epoch && !c.request.replies ==>
                  Current(Step(w, Answer(k)).calls[k]).Plain? && Step(w, Answer(k)).peer == w.peer)
  {
    RunKeepsInv(stored, events);
    hide Run;
    assert CallOk(Run(Fresh(stored), events), k);
  }

  /** The server numbers its replies from one after every start, without a gap. */
  ghost predicate Numbered(w: World) {
    && (forall r :: 0 <= r < |w.given| ==> w.given[r].counter == NumberAt(w.given, r))
    && w.peer.sent == (if w.given != [] && w.given[|w.given| - 1].epoch == w.peer.epoch
                       then w.given[|w.given| - 1].counter else 0)
    && (forall r :: 0 <= r < |w.given| ==> w.given[r].epoch <= w.peer.epoch)
  }

  function NumberAt(given: seq<Reply>, r: nat): nat
    requires r < |given|
  {
    if r > 0 && given[r - 1].epoch == given[r].epoch then given[r - 1].counter + 1 else 1
  }

  lemma {:induction false} RepliesAreNumbered(stored: Option<int>, events: seq<Event>)
    ensures Numbered(Run(Fresh(stored), events))
  {
    if |events| > 0 {
      RepliesAreNumbered(stored, events[..|events| - 1]);
      StepNumbers(Run(Fresh(stored), events[..|events| - 1]), events[|events| - 1]);
    }
  }

  lemma StepNumbers(w: World, e: Event)
    requires Numbered(w)
    ensures Numbered(Step(w, e))
  {
    OnlyAnswersGive(w, e);
    hide Step, NumberAt;
    var w' := Step(w, e);
    if |w'.given| > |w.given| { LastNumber(w'.given); }
    SameNumbers(w.given, w'.given);
    forall r | 0 <= r < |w'.given|
      ensures w'.given[r].counter == NumberAt(w'.given, r) && w'.given[r].epoch <= w'.peer.epoch
    {
      if r < |w.given| { assert w.given[r].counter == NumberAt(w.given, r); }
    }
  }

  lemma LastNumber(given: seq<Reply>)
    requires given != []
    ensures NumberAt(given, |given| - 1)
            == if |given| > 1 && given[|given| - 2].epoch == given[|given| - 1].epoch
               then given[|given| - 2].counter + 1 else 1
  {
  }

  lemma SameNumbers(given: seq<Reply>, more: seq<Reply>)
    requires |given| <= |more| && more[..|given|] == given
    ensures forall r :: 0 <= r < |given| ==> NumberAt(more, r) == NumberAt(given, r)
  {
    forall r | 0 <= r < |given| ensures more[r] == given[r] {
      assert more[..|given|][r] == given[r];
    }
  }

  lemma OnlyAnswersGive(w: World, e: Event)
    ensures var w' := Step(w, e);
            || (w'.given == w.given && w'.peer.epoch == w.peer.epoch && w'.peer.sent == w.peer.sent)
            || (w'.given == w.given && w'.peer.epoch > w.peer.epoch && w'.peer.sent == 0)
            || (w'.peer.epoch == w.peer.epoch && w'.peer.sent == w.peer.sent + 1 && |w'.given| == |w.given| + 1
                && w'.given[..|w.given|] == w.given && w'.given[|w.given|].epoch == w.peer.epoch
                && w'.given[|w.given|].counter == w'.peer.sent)
  {
  }

  /** What a page seals with: each request with a body takes the next counter of its page,
  a request without one takes none, and a new page begins a million above the last claim
  that was written. */
  lemma SendMeans(stored: Option<int>, events: seq<Event>, r: Request, persists: bool)
    requires r.page < |Run(Fresh(stored), events).pages|
    ensures var w := Run(Fresh(stored), events);
            var sent, loaded := Step(w, Send(r)), Step(w, Load(persists));
            && |sent.calls| == |w.calls| + 1 && sent.calls[|w.calls|].first == Travelling(sent.pages[r.page].counter)
            && sent.pages[r.page].counter == w.pages[r.page].counter + (if r.body then 1 else 0)
            && |loaded.pages| == |w.pages| + 1 && loaded.pages[|w.pages|].counter == Counters.Start(w.stored)
            && !loaded.pages[|w.pages|].receivedAny
            && loaded.stored == if persists then Some(Counters.Start(w.stored) + 1_000_000) else w.stored
  {
    hide Run;
  }

  /** A retry starts afresh: its page has a new envelope, on the block that site data offer,
  which has opened nothing; so whatever the server answers, if the page opens nothing else
  meanwhile the answer is taken and the request is over. */
  lemma RetryStartsAfresh(stored: Option<int>, events: seq<Event>, k: nat, persists: bool)
    requires var w := Run(Fresh(stored), events); k < |w.calls| && w.calls[k].stage.Replayed?
    ensures var w := Run(Fresh(stored), events); var r := w.calls[k].request;
            var w1 := Step(w, Again(k, persists));
            && r.page < |w.pages| == |w1.pages|
            && w1.pages[r.page].envelope > w.pages[r.page].envelope && !w1.pages[r.page].receivedAny
            && w1.pages[r.page].counter == Counters.Start(w.stored) + (if r.body then 1 else 0)
            && w1.stored == (if persists then Some(Counters.Start(w.stored) + 1_000_000) else w.stored)
            && w1.calls[k].second == Some(Travelling(w1.pages[r.page].counter)) && w1.calls[k].stage.Waiting?
            && w1.calls[k].first == w.calls[k].first
            && Step(Step(Step(w1, Arrive(k)), Answer(k)), Hear(k)).calls[k].stage.Done?
  {
    RunKeepsInv(stored, events);
    hide Run;
    assert CallOk(Run(Fresh(stored), events), k);
  }

  /** A try that reaches the server is refused exactly when it has a body and the server
  took a counter at least as high since it was started. */
  lemma RefusedExactlyWhen(stored: Option<int>, events: seq<Event>, k: nat)
    requires var w := Run(Fresh(stored), events); k < |w.calls| && Current(w.calls[k]).Travelling?
    ensures var w := Run(Fresh(stored), events); var c := w.calls[k];
            var after := Current(Step(w, Arrive(k)).calls[k]);
            && (after.Rejected? <==> c.request.body && exists t <- w.taken ::
                  t.epoch == w.peer.epoch && t.counter >= Current(c).counter)
            && (ActedOn(after) <==> !after.Rejected?)
  {
    RunKeepsInv(stored, events);
  }

  /** Of two replies given by one run of the server, the one that was opened first
  outruns the other exactly when it was given later. */
  lemma OutrunsExactlyWhen(stored: Option<int>, events: seq<Event>, j: nat, i: nat)
    requires var w := Run(Fresh(stored), events); j < i < |w.heard|
    ensures var w := Run(Fresh(stored), events);
            var x, y := w.heard[j], w.heard[i];
            && Pointed(w) && x.reply != y.reply
            && (w.given[x.reply].epoch == w.given[y.reply].epoch ==>
                  (Outruns(w.given, x, y) <==> x.page == y.page && x.envelope == y.envelope && x.reply > y.reply))
            && (Outruns(w.given, x, y) && x.reply < y.reply ==> w.given[x.reply].epoch < w.given[y.reply].epoch)
  {
    RunKeepsInv(stored, events);
  }

  /** Replies of one page that were opened in another order than they were given. */
  ghost predicate OutOfOrder(w: World, i: nat)
    requires i < |w.heard|
  {
    exists j: nat :: j < i && w.heard[j].page == w.heard[i].page && w.heard[j].envelope == w.heard[i].envelope
                     && w.heard[j].reply > w.heard[i].reply
  }

  /** As long as the server was not restarted, a request is acted on twice exactly when a
  reply that was given later was opened before its own by the same envelope, and the
  retry got through: pages that open their replies in order are served once. */
  lemma WithoutRestart(stored: Option<int>, events: seq<Event>, k: nat)
    requires var w := Run(Fresh(stored), events); k < |w.calls| && w.peer.epoch == 0
    ensures var w := Run(Fresh(stored), events); var c := w.calls[k];
            && Pointed(w)
            && (ActedTwice(c) <==>
                  && (exists i :: 0 <= i < |w.heard| && AnswersFirst(w, i, k) && OutOfOrder(w, i))
                  && c.second.Some? && ActedOn(c.second.value))
  {
    ActedTwiceExactlyWhen(stored, events, k);
    RunKeepsInv(stored, events);
    var w := Run(Fresh(stored), events);
    forall i | 0 <= i < |w.heard| ensures Overtaken(w, i) <==> OutOfOrder(w, i) {
      forall j: nat | j < i
        ensures Outruns(w.given, w.heard[j], w.heard[i])
                <==> w.heard[j].page == w.heard[i].page && w.heard[j].envelope == w.heard[i].envelope
                     && w.heard[j].reply > w.heard[i].reply
      {
        OutrunsExactlyWhen(stored, events, j, i);
        assert ReplyOk(w, w.heard[j].reply) && ReplyOk(w, w.heard[i].reply);
      }
    }
    hide Run, Inv, Overtaken, OutOfOrder;
  }

  // ------------------------------------------------- the two ways, as runs

  lemma RunLast(w: World, events: seq<Event>, e: Event)
    ensures Run(w, events + [e]) == Step(Run(w, events), e)
  {
    var all := events + [e];
    assert all[..|all| - 1] == events;
  }

  /** The reply to the first try is under way and will look old to the page. */
  ghost predicate TooLate(w: World, k: nat) {
    && k < |w.calls| && w.calls[k].second.None? && w.calls[k].stage.Waiting? && w.calls[k].first.Answered?
    && w.calls[k].request.page < |w.pages| && w.calls[k].first.reply < |w.given|
    && LooksOld(w.pages[w.calls[k].request.page], w.given[w.calls[k].first.reply].counter)
    && (w.calls[k].request.body && w.peer.seenAny ==> w.peer.high <= Counters.Start(w.stored))
  }

  /** From there the page opens it, retries, and the server acts again. */
  lemma TooLateActsTwice(w: World, events: seq<Event>, k: nat, persists: bool) returns (more: seq<Event>)
    requires TooLate(Run(w, events), k)
    ensures more == events + [Hear(k)] + [Again(k, persists)] + [Arrive(k)]
    ensures k < |Run(w, more).calls| && ActedTwice(Run(w, more).calls[k])
  {
    hide Run;
    var e1 := events + [Hear(k)];
    RunLast(w, events, Hear(k));
    var e2 := e1 + [Again(k, persists)];
    RunLast(w, e1, Again(k, persists));
    more := e2 + [Arrive(k)];
    RunLast(w, e2, Arrive(k));
  }

  /** After a restart, the first request of every page that has opened a reply before is
  acted on twice, whatever happened until then: the first reply of the server looks old
  to that page, and the retry is taken if it has no body or its counter lies above the
  page's. */
  lemma RestartActsTwice(stored: Option<int>, events: seq<Event>, r: Request, persists: bool)
    returns (more: seq<Event>)
    requires var w := Run(Fresh(stored), events);
             && r.replies && r.page < |w.pages| && w.pages[r.page].receivedAny
             && (r.body ==> w.pages[r.page].counter < Counters.Start(w.stored))
    ensures var k := |Run(Fresh(stored), events).calls|;
            && more == events + [Restart] + [Send(r)] + [Arrive(k)] + [Answer(k)]
                       + [Hear(k)] + [Again(k, persists)] + [Arrive(k)]
            && k < |Run(Fresh(stored), more).calls| && ActedTwice(Run(Fresh(stored), more).calls[k])
  {
    RunKeepsInv(stored, events);
    var w, k := Run(Fresh(stored), events), |Run(Fresh(stored), events).calls|;
    ReceivedIsPositive(w, r.page);
    AfterRestart(w, r);
    hide Run, Step, Inv, TooLate;
    var e1 := events + [Restart];
    RunLast(Fresh(stored), events, Restart);
    var e2 := e1 + [Send(r)];
    RunLast(Fresh(stored), e1, Send(r));
    var e3 := e2 + [Arrive(k)];
    RunLast(Fresh(stored), e2, Arrive(k));
    RunLast(Fresh(stored), e3, Answer(k));
    more := TooLateActsTwice(Fresh(stored), e3 + [Answer(k)], k, persists);
  }

  lemma ReceivedIsPositive(w: World, p: nat)
    requires Inv(w) && p < |w.pages| && w.pages[p].receivedAny
    ensures 0 < w.pages[p].received
    ensures w.peer.epoch == 0 ==> w.pages[p].received <= w.peer.sent
  {
    assert PageOk(w, p);
    forall i | 0 <= i < |w.heard|
      ensures 0 < w.given[w.heard[i].reply].counter
              && (w.peer.epoch == 0 ==> w.given[w.heard[i].reply].counter <= w.peer.sent)
    {
      assert ReplyOk(w, w.heard[i].reply);
    }
  }

  lemma AfterRestart(w: World, r: Request)
    requires r.replies && r.page < |w.pages| && LooksOld(w.pages[r.page], 1)
    requires r.body ==> w.pages[r.page].counter < Counters.Start(w.stored)
    ensures var k := |w.calls|;
            TooLate(Step(Step(Step(Step(w, Restart), Send(r)), Arrive(k)), Answer(k)), k)
  {
  }

  /** Without any restart, of two requests that overlap on one page the first is acted on
  twice when its reply comes second: whatever happened before, if they have no body or
  their counters are still taken and the next block lies above them. */
  lemma OverlapActsTwice(stored: Option<int>, events: seq<Event>, r: Request, persists: bool)
    returns (more: seq<Event>)
    requires var w := Run(Fresh(stored), events);
             && w.peer.epoch == 0 && r.replies && r.page < |w.pages|
             && (r.body ==> && (w.peer.seenAny ==> w.peer.high <= w.pages[r.page].counter)
                            && w.pages[r.page].counter + 2 <= Counters.Start(w.stored))
    ensures var k := |Run(Fresh(stored), events).calls|;
            && more == events + [Send(r)] + [Send(r)] + [Arrive(k)] + [Arrive(k + 1)] + [Answer(k)] + [Answer(k + 1)]
                       + [Hear(k + 1)] + [Hear(k)] + [Again(k, persists)] + [Arrive(k)]
            && k < |Run(Fresh(stored), more).calls| && ActedTwice(Run(Fresh(stored), more).calls[k])
  {
    RunKeepsInv(stored, events);
    var w, k := Run(Fresh(stored), events), |Run(Fresh(stored), events).calls|;
    if w.pages[r.page].receivedAny { ReceivedIsPositive(w, r.page); }
    BothTaken(w, r);
    BothAnswered(Step(Step(Step(Step(w, Send(r)), Send(r)), Arrive(k)), Arrive(k + 1)), k);
    hide Run, Step, Inv, TooLate;
    var e1 := events + [Send(r)];
    RunLast(Fresh(stored), events, Send(r));
    var e2 := e1 + [Send(r)];
    RunLast(Fresh(stored), e1, Send(r));
    var e3 := e2 + [Arrive(k)];
    RunLast(Fresh(stored), e2, Arrive(k));
    var e4 := e3 + [Arrive(k + 1)];
    RunLast(Fresh(stored), e3, Arrive(k + 1));
    var e5 := e4 + [Answer(k)];
    RunLast(Fresh(stored), e4, Answer(k));
    var e6 := e5 + [Answer(k + 1)];
    RunLast(Fresh(stored), e5, Answer(k + 1));
    RunLast(Fresh(stored), e6, Hear(k + 1));
    more := TooLateActsTwice(Fresh(stored), e6 + [Hear(k + 1)], k, persists);
  }

  /** Two first tries of one page are being acted on, and the page opened no reply that
  the server has yet to give. */
  ghost predicate BothActing(w: World, k: nat) {
    && k + 1 < |w.calls|
    && (forall x :: k <= x <= k + 1 ==>
          w.calls[x] == Call(w.calls[k].request, Acting(w.peer.epoch), None, Waiting))
    && w.calls[k].request.replies && w.calls[k].request.page < |w.pages|
    && (w.pages[w.calls[k].request.page].receivedAny ==> w.pages[w.calls[k].request.page].received <= w.peer.sent)
    && (w.calls[k].request.body && w.peer.seenAny ==> w.peer.high <= Counters.Start(w.stored))
  }

  lemma BothTaken(w: World, r: Request)
    requires r.replies && r.page < |w.pages|
    requires w.pages[r.page].receivedAny ==> w.pages[r.page].received <= w.peer.sent
    requires r.body ==> && (w.peer.seenAny ==> w.peer.high <= w.pages[r.page].counter)
                        && w.pages[r.page].counter + 2 <= Counters.Start(w.stored)
    ensures var k := |w.calls|;
            BothActing(Step(Step(Step(Step(w, Send(r)), Send(r)), Arrive(k)), Arrive(k + 1)), k)
  {
  }

  lemma BothAnswered(w: World, k: nat)
    requires BothActing(w, k)
    ensures TooLate(Step(Step(Step(w, Answer(k)), Answer(k + 1)), Hear(k + 1)), k)
  {
  }

  lemma NewPageIsLoaded(stored: Option<int>)
    ensures var w := Run(Fresh(stored), [Load(true)]);
            && w.pages == [NewPage(stored, 0)] && w.calls == [] && w.peer == Peer(0, 0, false, 0)
            && Counters.Start(w.stored) == Counters.Start(stored) + Counters.COUNTER_BLOCK
  {
    var none: seq<Event> := [];
    assert none + [Load(true)] == [Load(true)];
    RunLast(Fresh(stored), none, Load(true));
  }

  /** A run of a device that starts afresh: a page sends two requests and opens the second
  reply first, and the first request is acted on twice. */
  lemma OverlapFromTheStart(stored: Option<int>, body: bool) returns (es: seq<Event>)
    ensures var w := Run(Fresh(stored), es); 0 < |w.calls| && ActedTwice(w.calls[0])
    ensures |es| == 11 && forall e <- es :: !e.Restart?
  {
    hide Run, Step;
    NewPageIsLoaded(stored);
    es := OverlapActsTwice(stored, [Load(true)], Request(0, body, true), true);
  }

  /** Another one: a page opens one reply, the server is restarted, and the second request
  is acted on twice. */
  lemma RestartFromTheStart(stored: Option<int>, body: bool) returns (es: seq<Event>)
    ensures var w := Run(Fresh(stored), es); 1 < |w.calls| && ActedTwice(w.calls[1])
    ensures |es| == 12
  {
    var r := Request(0, body, true);
    var e1 := [Load(true)];
    hide Run;
    NewPageIsLoaded(stored);
    FirstReplyIsOpened(Run(Fresh(stored), e1), r);
    hide Step;
    var e2 := e1 + [Send(r)];
    RunLast(Fresh(stored), e1, Send(r));
    var e3 := e2 + [Arrive(0)];
    RunLast(Fresh(stored), e2, Arrive(0));
    var e4 := e3 + [Answer(0)];
    RunLast(Fresh(stored), e3, Answer(0));
    var e5 := e4 + [Hear(0)];
    RunLast(Fresh(stored), e4, Hear(0));
    es := RestartActsTwice(stored, e5, r, true);
  }

  lemma FirstReplyIsOpened(w: World, r: Request)
    requires r.replies && r.page < |w.pages| && w.calls == [] && !w.peer.seenAny && !w.pages[r.page].receivedAny
    requires w.pages[r.page].counter + 1 < Counters.Start(w.stored)
    ensures var t := Step(Step(Step(Step(w, Send(r)), Arrive(0)), Answer(0)), Hear(0));
            && |t.calls| == 1 && r.page < |t.pages| && t.pages[r.page].receivedAny
            && t.pages[r.page].counter < Counters.Start(t.stored)
  {
  }

  // ---------------------------------------------------------------- in place

  class Server {
    var epoch: nat
    var high: nat
    var seenAny: bool
    var sent: nat

    ghost function View(): Peer
      reads this
    {
      Peer(epoch, high, seenAny, sent)
    }

    /** The check of a sealed body. */
    method Check(counter: nat) returns (refused: bool)
      modifies this`high, this`seenAny
      ensures refused <==> Stale(old(View()), Request(0, true, true), counter)
      ensures View() == Checked(old(View()), Request(0, true, true), counter)
    {
      refused := seenAny && counter <= high;
      if !refused {
        high, seenAny := counter, true;
      }
    }

    /** The counter of the next reply. */
    method Seal() returns (counter: nat)
      modifies this`sent
      ensures counter == old(sent) + 1 && View() == old(View()).(sent := counter)
    {
      sent := sent + 1;
      counter := sent;
    }

    /** A restart forgets both counters of the device. */
    method Restart()
      modifies this
      ensures View() == Peer(old(epoch) + 1, 0, false, 0)
    {
      epoch, high, seenAny, sent := epoch + 1, 0, false, 0;
    }
  }

  class Session {
    const storage: Counters.Storage
    var envelope: nat
    var counter: nat
    var received: nat
    var receivedAny: bool

    ghost function View(): Page
      reads this
    {
      Page(envelope, counter, received, receivedAny)
    }

    constructor (storage: Counters.Storage, persists: bool)
      modifies storage
      ensures this.storage == storage
      ensures View() == NewPage(old(storage.stored), 0) && storage.stored == Claimed(old(storage.stored), persists)
    {
      this.storage := storage;
      envelope, received, receivedAny := 0, 0, false;
      new;
      counter := storage.ReserveCounterBlock(persists);
    }

    /** Seals a request that has a body. */
    method Seal(r: Request)
      modifies this`counter
      ensures View() == Sealed(old(View()), r)
    {
      if r.body {
        counter := counter + 1;
      }
    }

    /** Opens a reply, or takes it for a replay. */
    method Open(reply: nat) returns (replay: bool)
      modifies this`received, this`receivedAny
      ensures replay <==> LooksOld(old(View()), reply)
      ensures View() == Opened(old(View()), reply)
    {
      replay := receivedAny && reply <= received;
      if !replay {
        received, receivedAny := reply, true;
      }
    }

    /** What a replay is answered with: a new envelope, and the request sealed again. */
    method Retry(r: Request, persists: bool)
      modifies this, storage
      ensures View() == Sealed(NewPage(old(storage.stored), old(envelope) + 1), r)
      ensures storage.stored == Claimed(old(storage.stored), persists)
    {
      counter := storage.ReserveCounterBlock(persists);
      envelope, received, receivedAny := envelope + 1, 0, false;
      Seal(r);
    }
  }
}
