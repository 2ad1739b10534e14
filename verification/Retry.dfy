/**
Coming back after an interruption: the send is run again, from where the computer
stands, on a schedule of growing waits.
*/
module Retry {
  import opened Common
  import opened Staging
  import opened Upload
  import opened Resume
  import opened Sender

  datatype Policy = Policy(attempts: nat, first: nat, max: nat, factor: nat)

  const DEFAULT_RETRY := Policy(6, 1_000, 30_000, 2)

  function Power(base: nat, k: nat): nat {
    if k == 0 then 1 else base * Power(base, k - 1)
  }

  /** The wait before an attempt, counting the first as 0. */
  function DelayFor(p: Policy, attempt: nat): nat {
    if attempt == 0 then 0 else Min(p.max, p.first * Power(p.factor, attempt - 1))
  }

  /** All waits up to and including the one before attempt `n - 1`. */
  function TotalWait(p: Policy, n: nat): nat {
    if n == 0 then 0 else TotalWait(p, n - 1) + DelayFor(p, n - 1)
  }

  /** The default schedule waits five times, 31 seconds in all: its ceiling of
  thirty seconds is never reached. */
  lemma DefaultSchedule()
    ensures TotalWait(DEFAULT_RETRY, DEFAULT_RETRY.attempts) == 31_000
    ensures forall k :: 0 <= k < DEFAULT_RETRY.attempts ==> DelayFor(DEFAULT_RETRY, k) < DEFAULT_RETRY.max
  {
  }

  /** No schedule waits longer than its ceiling for each retry. */
  lemma {:induction false} WaitsAreBounded(p: Policy, n: nat)
    ensures TotalWait(p, n) <= n * p.max
  {
    if n > 0 {
      WaitsAreBounded(p, n - 1);
      assert n * p.max == (n - 1) * p.max + p.max;
    }
  }

  // -------------------------------------------------------------- one wait

  /** What happens during a wait: when the network comes back, if it was known to be
  away, and when the page is told to stop. */
  datatype Pause = Pause(back: Option<nat>, stop: Option<nat>)

  /** How long a wait took, and whether it was cut off by the stop. */
  datatype Rest = Rest(elapsed: nat, stopped: bool)

  /** The wait ends with the timer or the network, whichever comes first, unless the
  stop comes before both. */
  function WaitFor(delay: nat, p: Pause): Rest {
    var end := if p.back.Some? then Min(delay, p.back.value) else delay;
    if p.stop.Some? && p.stop.value < end then Rest(p.stop.value, true) else Rest(end, false)
  }

  predicate Undisturbed(delay: nat, p: Pause) {
    (p.back.Some? ==> delay <= p.back.value) && (p.stop.Some? ==> delay <= p.stop.value)
  }

  /** No wait is longer than scheduled, and one is shorter exactly when it was disturbed. */
  lemma WaitsAtMost(delay: nat, p: Pause)
    ensures var r := WaitFor(delay, p);
            && r.elapsed <= delay
            && (r.elapsed == delay <==> Undisturbed(delay, p))
            && (Undisturbed(delay, p) ==> !r.stopped)
            && (r.stopped <==> p.stop.Some? && p.stop.value < delay && (p.back.Some? ==> p.stop.value < p.back.value))
  {
  }

  // ------------------------------------------------------------ the attempts

  datatype Result = Delivered(digest: Digest) | Aborted | Refused | GaveUp

  /** What the page finds at one attempt: whether it was stopped before it, what happens
  while it waits, the network, and whether a failure of it looks like the network. */
  datatype Attempt = Attempt(aborted: bool, pause: Pause, net: Network, transient: bool)

  /** No attempt meets a download of the item or a completion under another digest. */
  ghost predicate LoyalWorld(world: nat -> Attempt, source: seq<Byte>) {
    forall k :: LoyalNetwork(world(k).net, source)
  }

  /** No attempt meets a download, a cancel, another digest or a disk that fails. */
  ghost predicate HonestWorld(world: nat -> Attempt, source: seq<Byte>) {
    forall k :: HonestNetwork(world(k).net, source)
  }

  /** Whether an attempt is reached: no stop before it, and only failures that look like
  the network in the attempts before. */
  predicate Reached(policy: Policy, world: nat -> Attempt, k: nat) {
    && (forall j | 0 <= j <= k ::
          !world(j).aborted && (j > 0 ==> !WaitFor(DelayFor(policy, j), world(j).pause).stopped))
    && (forall j | 0 <= j < k :: world(j).transient)
  }

  /** Retrying is resuming. Whatever the attempts meet, nothing stored is lost;
  delivery means that the digest of the whole source was posted and the item completed,
  with the source in its place unless a download or another digest interfered; and
  giving up means that every attempt was made and each failed in a way that looked like
  the network. The page waits no longer than scheduled, and exactly as long when no
  wait was disturbed. In an honest world the first attempt over a calm network that is
  reached delivers, whatever the attempts before it met. */
  method WithResume(source: seq<Byte>, computer: Item, policy: Policy, world: nat -> Attempt)
    returns (r: Result, it: Item, made: nat, waited: nat)
    requires Steady(computer) && computer.size == |source| && Sendable(source)
    ensures Steady(it) && it.size == |source| && computer.stored <= it.stored
    ensures r.Delivered? ==> r.digest == Digest(source) && it.completed
    ensures Genuine(computer, source) && LoyalWorld(world, source) ==>
              Genuine(it, source) && (r.Delivered? ==> it.placed == Some(source))
    ensures made <= policy.attempts && waited <= TotalWait(policy, if r.Aborted? then made + 1 else made)
    ensures !r.Aborted? && (forall k :: 0 <= k < made ==> Undisturbed(DelayFor(policy, k), world(k).pause)) ==>
              waited == TotalWait(policy, made)
    ensures r.GaveUp? <==> made == policy.attempts && !r.Delivered? && forall k :: 0 <= k < made ==> world(k).transient
    ensures r.Refused? ==> made > 0 && !world(made - 1).transient
    ensures r.Aborted? ==> made < policy.attempts && !Reached(policy, world, made)
    ensures forall k :: 0 <= k < made - 1 ==> world(k).transient
    ensures Ready(computer, source) && HonestWorld(world, source) ==>
              forall k :: 0 <= k < policy.attempts && CalmNetwork(world(k).net) && Reached(policy, world, k) ==>
                            r.Delivered? && made <= k + 1
  {
    hide Steady, Genuine, Ready, LoyalNetwork, HonestNetwork, CalmNetwork, SoundItem, Ground, Disturbed, WaitFor,
         Undisturbed, Power, Sendable;
    it, made, waited := computer, 0, 0;
    while made < policy.attempts
      invariant Steady(it) && it.size == |source| && computer.stored <= it.stored
      invariant Genuine(computer, source) && LoyalWorld(world, source) ==> Genuine(it, source)
      invariant Ready(computer, source) && HonestWorld(world, source) ==>
                  Ready(it, source) && forall k :: 0 <= k < made ==> !CalmNetwork(world(k).net)
      invariant made <= policy.attempts && waited <= TotalWait(policy, made)
      invariant (forall k :: 0 <= k < made ==> Undisturbed(DelayFor(policy, k), world(k).pause)) ==>
                  waited == TotalWait(policy, made)
      invariant forall k :: 0 <= k < made ==> world(k).transient
    {
      var now := world(made);
      if now.aborted { return Aborted, it, made, waited; }
      var delay := DelayFor(policy, made);
      WaitsAtMost(delay, now.pause);
      if made > 0 {
        var rest := WaitFor(delay, now.pause);
        waited := waited + rest.elapsed;
        if rest.stopped { return Aborted, it, made, waited; }
      }
      var sent, corrections, rounds;
      sent, it, corrections, rounds := SendItem(source, it, now.net);
      made := made + 1;
      if sent.Posted? { return Delivered(sent.digest), it, made, waited; }
      if !now.transient { return Result.Refused, it, made, waited; }
    }
    r := GaveUp;
  }
}
