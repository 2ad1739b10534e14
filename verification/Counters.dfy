/**
Counter blocks: each page claims a range of envelope counters before it seals.

A run interleaves any number of pages. Messages travel separately from sealing, so
they can arrive late, out of order, more than once or never.
*/
module Counters {
  import opened Common

  const COUNTER_BLOCK: nat := 1_000_000

  /** A claimed range: where it starts, how many counters were sealed from it, and
  whether the claim was written to site data. */
  datatype Block = Block(start: nat, used: nat, kept: bool)

  /** A sealed message: its block and its counter. */
  datatype Message = Message(block: nat, counter: nat)

  /** `stored` is the number in site data, absent or unreadable being `None`. The
  server remembers the highest counter it accepted, if any. */
  datatype World = World(stored: Option<int>, blocks: seq<Block>, sent: seq<Message>,
                         high: nat, seenAny: bool, accepted: seq<Message>)

  datatype Event =
    | Claim(persists: bool)
    | Seal(block: nat)
    | Arrive(message: nat)

  /** Where the next block starts. */
  function Start(stored: Option<int>): nat {
    if stored.Some? && stored.value >= 0 then stored.value else 0
  }

  /** The server's check, as in the envelope: strictly above what it has seen. */
  predicate Refused(w: World, counter: nat) {
    w.seenAny && counter <= w.high
  }

  function Step(w: World, e: Event): World {
    match e
    case Claim(persists) =>
      var start := Start(w.stored);
      w.(blocks := w.blocks + [Block(start, 0, persists)],
         stored := if persists then Some(start + COUNTER_BLOCK) else w.stored)
    case Seal(b) =>
      if b >= |w.blocks| then w
      else
        var block := w.blocks[b];
        w.(blocks := w.blocks[b := block.(used := block.used + 1)],
           sent := w.sent + [Message(b, block.start + block.used + 1)])
    case Arrive(i) =>
      if i >= |w.sent| || Refused(w, w.sent[i].counter) then w
      else w.(high := w.sent[i].counter, seenAny := true, accepted := w.accepted + [w.sent[i]])
  }

  function Run(w: World, events: seq<Event>): World {
    if |events| == 0 then w else Step(Run(w, events[..|events| - 1]), events[|events| - 1])
  }

  /** A device that never talked to this server, whatever its site data hold. */
  predicate Unused(w: World) {
    w.blocks == [] && w.sent == [] && !w.seenAny && w.accepted == []
  }

  predicate Persists(e: Event) {
    e.Claim? ==> e.persists
  }

  predicate WithinBlocks(w: World) {
    forall b :: 0 <= b < |w.blocks| ==> w.blocks[b].used <= COUNTER_BLOCK
  }

  // --------------------------------------------------------------- invariant

  /** Where the block after this one starts. */
  function Next(b: Block): nat {
    if b.kept then b.start + COUNTER_BLOCK else b.start
  }

  ghost predicate Inv(w: World) {
    && (forall b :: 0 < b < |w.blocks| ==> w.blocks[b].start == Next(w.blocks[b - 1]))
    && (w.blocks != [] ==> Start(w.stored) == Next(w.blocks[|w.blocks| - 1]))
    && (forall i :: 0 <= i < |w.sent| ==> IsOf(w, w.sent[i]))
    && (forall i :: 0 <= i < |w.accepted| ==> IsOf(w, w.accepted[i]) && w.accepted[i].counter <= w.high)
    && (w.seenAny <==> w.accepted != [])
    && (w.accepted != [] ==> w.high == w.accepted[|w.accepted| - 1].counter)
  }

  /** The block has sealed a message with this counter. */
  predicate Sealed(b: Block, counter: nat) {
    b.start < counter <= b.start + b.used
  }

  ghost predicate IsOf(w: World, m: Message) {
    m.block < |w.blocks| && Sealed(w.blocks[m.block], m.counter)
  }

  lemma SameMessages(w: World, w': World)
    requires |w.blocks| <= |w'.blocks|
    requires forall b :: 0 <= b < |w.blocks| ==>
               w'.blocks[b].start == w.blocks[b].start && w.blocks[b].used <= w'.blocks[b].used
    ensures forall m :: IsOf(w, m) ==> IsOf(w', m)
  {
  }

  lemma ClaimKeepsInv(w: World, persists: bool)
    requires Inv(w)
    ensures Inv(Step(w, Claim(persists)))
  {
    SameMessages(w, Step(w, Claim(persists)));
    hide IsOf;
  }

  lemma SealKeepsInv(w: World, b: nat)
    requires Inv(w) && b < |w.blocks|
    ensures Inv(Step(w, Seal(b)))
  {
    SameMessages(w, Step(w, Seal(b)));
    SealedIsOf(w, b);
    hide IsOf;
  }

  lemma ArriveKeepsInv(w: World, i: nat)
    requires Inv(w)
    ensures Inv(Step(w, Arrive(i)))
  {
    SameMessages(w, Step(w, Arrive(i)));
    hide IsOf;
  }

  lemma StepKeepsInv(w: World, e: Event)
    requires Inv(w)
    ensures Inv(Step(w, e))
  {
    hide Inv;
    match e
    case Claim(persists) => ClaimKeepsInv(w, persists);
    case Seal(b) => if b < |w.blocks| { SealKeepsInv(w, b); }
    case Arrive(i) => ArriveKeepsInv(w, i);
  }

  lemma SealedIsOf(w: World, b: nat)
    requires b < |w.blocks|
    ensures IsOf(Step(w, Seal(b)), Message(b, w.blocks[b].start + w.blocks[b].used + 1))
  {
  }

  lemma {:induction false} RunKeepsInv(w: World, events: seq<Event>)
    requires Unused(w)
    ensures Inv(Run(w, events))
  {
    hide Inv, Step;
    if |events| == 0 {
      UnusedIsFine(w);
    } else {
      RunKeepsInv(w, events[..|events| - 1]);
      StepKeepsInv(Run(w, events[..|events| - 1]), events[|events| - 1]);
    }
  }

  lemma UnusedIsFine(w: World)
    requires Unused(w)
    ensures Inv(w)
  {
  }

  /** How many of the claims from `a` up to `b` were written. */
  function Kept(blocks: seq<Block>, a: nat, b: nat): nat
    requires a <= b <= |blocks|
  {
    if a == b then 0 else Kept(blocks, a, b - 1) + if blocks[b - 1].kept then 1 else 0
  }

  lemma {:induction false} StartsFollowClaims(w: World, a: nat, b: nat)
    requires Inv(w) && a <= b < |w.blocks|
    ensures w.blocks[b].start == w.blocks[a].start + Kept(w.blocks, a, b) * COUNTER_BLOCK
    decreases b
  {
    if a < b {
      StartsFollowClaims(w, a, b - 1);
    }
  }

  lemma {:induction false} AllClaimsKept(w: World, events: seq<Event>)
    requires Unused(w) && forall i :: 0 <= i < |events| ==> Persists(events[i])
    ensures forall b :: 0 <= b < |Run(w, events).blocks| ==> Run(w, events).blocks[b].kept
  {
    if |events| > 0 {
      AllClaimsKept(w, events[..|events| - 1]);
    }
  }

  lemma {:induction false} KeptAll(blocks: seq<Block>, a: nat, b: nat)
    requires a <= b <= |blocks| && forall i :: a <= i < b ==> blocks[i].kept
    ensures Kept(blocks, a, b) == b - a
  {
    if a < b { KeptAll(blocks, a, b - 1); }
  }

  lemma {:induction false} KeptNone(blocks: seq<Block>, a: nat, b: nat)
    requires a <= b <= |blocks| && forall i :: a <= i < b ==> !blocks[i].kept
    ensures Kept(blocks, a, b) == 0
  {
    if a < b { KeptNone(blocks, a, b - 1); }
  }

  // ------------------------------------------------------------ main results

  ghost predicate ShareCounter(x: Block, y: Block) {
    exists c :: Sealed(x, c) && Sealed(y, c)
  }

  /** Two pages seal under one counter exactly when the later one sealed at all and the
  earlier one sealed more than its own million for every claim that was written from
  it on and before the later one. */
  lemma CountersRepeatExactlyWhen(w: World, events: seq<Event>, a: nat, b: nat)
    requires Unused(w) && a < b < |Run(w, events).blocks|
    ensures var blocks := Run(w, events).blocks;
            ShareCounter(blocks[a], blocks[b])
            <==> blocks[a].used > Kept(blocks, a, b) * COUNTER_BLOCK && blocks[b].used > 0
  {
    hide Run;
    RunKeepsInv(w, events);
    StartsFollowClaims(Run(w, events), a, b);
    var x, y := Run(w, events).blocks[a], Run(w, events).blocks[b];
    hide Inv;
    if x.used > Kept(Run(w, events).blocks, a, b) * COUNTER_BLOCK && y.used > 0 {
      assert Sealed(x, y.start + 1) && Sealed(y, y.start + 1);
    }
  }

  /** With all claims written, only an overrun makes counters repeat, and a long one
  reaches blocks further on. */
  lemma OverrunRepeatsExactlyWhen(w: World, events: seq<Event>, a: nat, b: nat)
    requires Unused(w) && a < b < |Run(w, events).blocks|
    requires forall i :: 0 <= i < |events| ==> Persists(events[i])
    ensures var blocks := Run(w, events).blocks;
            ShareCounter(blocks[a], blocks[b]) <==> blocks[a].used > (b - a) * COUNTER_BLOCK && blocks[b].used > 0
  {
    hide Run, ShareCounter;
    AllClaimsKept(w, events);
    KeptAll(Run(w, events).blocks, a, b);
    CountersRepeatExactlyWhen(w, events, a, b);
  }

  /** With no claim written in between, the later page has the same block, and counters
  repeat as soon as both have sealed. */
  lemma LostClaimRepeatsBlock(w: World, events: seq<Event>, a: nat, b: nat)
    requires Unused(w) && a < b < |Run(w, events).blocks|
    requires forall i :: a <= i < b ==> !Run(w, events).blocks[i].kept
    ensures var blocks := Run(w, events).blocks;
            && blocks[a].start == blocks[b].start
            && (ShareCounter(blocks[a], blocks[b]) <==> blocks[a].used > 0 && blocks[b].used > 0)
  {
    hide Run, ShareCounter;
    RunKeepsInv(w, events);
    StartsFollowClaims(Run(w, events), a, b);
    hide Inv;
    KeptNone(Run(w, events).blocks, a, b);
    CountersRepeatExactlyWhen(w, events, a, b);
  }

  /** Blocks that are not overrun use disjoint ranges that increase in the order in
  which they were claimed. */
  lemma BlocksAreDisjoint(w: World, events: seq<Event>, a: nat, b: nat)
    requires Unused(w) && forall i :: 0 <= i < |events| ==> Persists(events[i])
    requires WithinBlocks(Run(w, events)) && a < b < |Run(w, events).blocks|
    ensures var w' := Run(w, events); w'.blocks[a].start + w'.blocks[a].used <= w'.blocks[b].start
  {
    hide Run;
    RunKeepsInv(w, events);
    AllClaimsKept(w, events);
    KeptAll(Run(w, events).blocks, a, b);
    StartsFollowClaims(Run(w, events), a, b);
    hide Inv;
  }

  /** A message is refused exactly when one with a counter at least as high was
  accepted, and that one is from the same block or from a block claimed later. */
  lemma RefusedOnlyByLaterBlocks(w: World, events: seq<Event>, i: nat)
    requires Unused(w) && forall k :: 0 <= k < |events| ==> Persists(events[k])
    requires WithinBlocks(Run(w, events)) && i < |Run(w, events).sent|
    ensures var w' := Run(w, events); var m := w'.sent[i];
            && (Refused(w', m.counter) <==>
                  exists k :: 0 <= k < |w'.accepted| && w'.accepted[k].counter >= m.counter)
            && (forall k :: 0 <= k < |w'.accepted| && w'.accepted[k].counter >= m.counter ==>
                  w'.accepted[k].block >= m.block)
  {
    RunKeepsInv(w, events);
    var w' := Run(w, events);
    var m := w'.sent[i];
    assert IsOf(w', m);
    if Refused(w', m.counter) {
      assert w'.accepted[|w'.accepted| - 1].counter >= m.counter;
    }
    forall k | 0 <= k < |w'.accepted| && w'.accepted[k].counter >= m.counter
      ensures w'.accepted[k].block >= m.block
    {
      assert IsOf(w', w'.accepted[k]);
      if w'.accepted[k].block < m.block {
        BlocksAreDisjoint(w, events, w'.accepted[k].block, m.block);
      }
    }
  }

  /** The retry: a block claimed now lies wholly above the server's high-water mark,
  so the first message sealed from it is accepted when it arrives, after whatever
  else happened, unless a message of this block or of a later one came first. */
  lemma RetryFromFreshBlockIsAccepted(w: World, events: seq<Event>, between: seq<Event>, i: nat)
    requires Unused(w)
    requires forall k :: 0 <= k < |events + [Claim(true)] + between| ==> Persists((events + [Claim(true)] + between)[k])
    requires var w' := Run(w, events + [Claim(true)] + between);
             WithinBlocks(w') && i < |w'.sent| && w'.sent[i].block == |Run(w, events).blocks|
    requires WithinBlocks(Run(w, events))
    ensures var before := Run(w, events); before.seenAny ==> before.high <= Start(before.stored)
    ensures var w' := Run(w, events + [Claim(true)] + between);
            Refused(w', w'.sent[i].counter) ==>
              exists k :: 0 <= k < |w'.accepted| && w'.accepted[k].block >= w'.sent[i].block
  {
    forall k | 0 <= k < |events| ensures Persists(events[k]) {
      assert (events + [Claim(true)] + between)[k] == events[k];
    }
    FreshBlockIsAbove(w, events);
    RefusedOnlyByLaterBlocks(w, events + [Claim(true)] + between, i);
  }

  lemma FreshBlockIsAbove(w: World, events: seq<Event>)
    requires Unused(w) && WithinBlocks(Run(w, events)) && forall k :: 0 <= k < |events| ==> Persists(events[k])
    ensures var before := Run(w, events); before.seenAny ==> before.high <= Start(before.stored)
  {
    hide Run;
    RunKeepsInv(w, events);
    AllClaimsKept(w, events);
    var before := Run(w, events);
    if before.seenAny {
      var m := before.accepted[|before.accepted| - 1];
      assert IsOf(before, m);
      var last := |before.blocks| - 1;
      StartsFollowClaims(before, m.block, last);
    }
  }

  // ------------------------------------------------- what a run consists of

  lemma RunLast(w: World, events: seq<Event>, e: Event)
    ensures Run(w, []) == w && Run(w, events + [e]) == Step(Run(w, events), e)
  {
    assert (events + [e])[..|events + [e]| - 1] == events;
  }

  /** Every counter of a block between its start and its use was sealed: the messages of a
  page are numbered from its start, counted from one, without a gap. */
  ghost predicate AllSealed(w: World) {
    forall b, c :: 0 <= b < |w.blocks| && Sealed(w.blocks[b], c) ==> Message(b, c) in w.sent
  }

  lemma {:induction false} NoCounterIsSkipped(w: World, events: seq<Event>)
    requires Unused(w)
    ensures AllSealed(Run(w, events))
  {
    hide Step;
    if |events| > 0 {
      NoCounterIsSkipped(w, events[..|events| - 1]);
      StepSkipsNone(Run(w, events[..|events| - 1]), events[|events| - 1]);
    }
  }

  lemma StepSkipsNone(w: World, e: Event)
    requires AllSealed(w)
    ensures AllSealed(Step(w, e))
  {
    var w' := Step(w, e);
    forall b, c | 0 <= b < |w'.blocks| && Sealed(w'.blocks[b], c) ensures Message(b, c) in w'.sent {
      if b < |w.blocks| && Sealed(w.blocks[b], c) { assert Message(b, c) in w.sent; }
      if e.Seal? && e.block == b { assert w'.sent[|w.sent|] == Message(b, w.blocks[b].start + w.blocks[b].used + 1); }
    }
  }

  /** A message that arrives is accepted exactly when every accepted one has a lower
  counter, and then it is the last of them. */
  lemma AcceptedExactlyWhen(w: World, events: seq<Event>, i: nat)
    requires Unused(w) && i < |Run(w, events).sent|
    ensures var before := Run(w, events); var after := Run(w, events + [Arrive(i)]);
            after.accepted
            == if forall k :: 0 <= k < |before.accepted| ==> before.accepted[k].counter < before.sent[i].counter
               then before.accepted + [before.sent[i]] else before.accepted
  {
    RunKeepsInv(w, events);
    RunLast(w, events, Arrive(i));
    var before := Run(w, events);
    hide Run;
    if before.seenAny { assert before.accepted[|before.accepted| - 1].counter == before.high; }
  }

  /** Of two pages, the older one is behind: once a message of the newer one was accepted,
  the next one of the older one is refused. */
  lemma OlderPageIsRefused(stored: Option<int>) returns (events: seq<Event>)
    ensures events == [Claim(true)] + [Claim(true)] + [Seal(0)] + [Seal(1)] + [Arrive(1)]
    ensures var w := Run(World(stored, [], [], 0, false, []), events);
            && w.sent == [Message(0, Start(stored) + 1), Message(1, Start(stored) + 1_000_001)]
            && w.accepted == [w.sent[1]] && Refused(w, w.sent[0].counter)
  {
    var w0 := World(stored, [], [], 0, false, []);
    var none: seq<Event> := [];
    var e1 := none + [Claim(true)];
    var e2 := e1 + [Claim(true)];
    var e3 := e2 + [Seal(0)];
    var e4 := e3 + [Seal(1)];
    events := e4 + [Arrive(1)];
    hide Run;
    RunLast(w0, none, Claim(true));
    RunLast(w0, e1, Claim(true));
    RunLast(w0, e2, Seal(0));
    RunLast(w0, e3, Seal(1));
    RunLast(w0, e4, Arrive(1));
  }

  // ---------------------------------------------------------------- in place

  class Storage {
    var stored: Option<int>

    /** Claims the next block; a failed write is not an error. */
    method ReserveCounterBlock(persists: bool) returns (start: nat)
      modifies this
      ensures start == Start(old(stored))
      ensures start == match old(stored) case Some(n) => (if n > 0 then n else 0) case None => 0
      ensures stored == if persists then Some(start + 1_000_000) else old(stored)
    {
      start := 0;
      if stored.Some? {
        if stored.value >= 0 { start := stored.value; }
      }
      if persists {
        stored := Some(start + COUNTER_BLOCK);
      }
    }
  }
}
