/**
 Recovery after a device loss: the one-duck latch, the workers that fail, and the pollers' good exit,
 as a machine of atomic steps over a fixed set of rings on one adapter.

 A worker that loses its device publishes REBUILDING, publishes its exit, and then tries to take the
 latch and queue a duck. The duck's poller reads the mirrors; when none is pending it clears the latch,
 re-reads the mirrors, and re-arms for the first that is unsettled. A queued duck is taken to be
 accepted by the channel, and only the good exit of the poller is modelled.
 */
module Tdr {

  datatype Mirror = Active | Rebuilding | Dead

  /** What one ring's frame worker is doing. */
  datatype Worker =
    | Down
    | Starting           // has its device, has not published a frame
    | Up
    | PublishedLoss      // mirror says REBUILDING
    | PublishedExit      // about to try the latch

  /** `reported`: the failure that left the ring REBUILDING has been through the latch (history). */
  datatype Ring = Ring(transport: bool, mirror: Mirror, worker: Worker, reported: bool)
  {
    /** Nothing left to watch: no transport, or no longer rebuilding. */
    predicate Settled() { !transport || !mirror.Rebuilding? }
  }

  datatype RingTick = TickRebuilding | TickSettled | TickHeartbeatBlocked
  {
    predicate IsPending() { !TickSettled? }
  }

  function Tick(ring: Ring, lockAvailable: bool): RingTick {
    if ring.Settled() then TickSettled else if !lockAvailable then TickHeartbeatBlocked else TickRebuilding
  }

  /** What a poller makes of a ring depends on its mirror and transport alone. */
  lemma LockNeverDecides(ring: Ring, lockAvailable: bool)
    ensures Tick(ring, lockAvailable).IsPending() <==> !ring.Settled()
  {
  }

  datatype Poller =
    | Tally(k: nat, pending: nat)
    | Clear                // the tally came to nothing: release the latch
    | Recheck(k: nat)
    | Rearm                // found an unsettled ring: try the latch
    | Gone

  datatype State = State(rings: seq<Ring>, latch: bool, queued: bool, pollers: seq<Poller>)

  datatype Action =
    | Start(r: nat) | FirstFrame(r: nat) | Lose(r: nat) | PublishExit(r: nat) | QueueDuck(r: nat) | Finish(r: nat)
    | RunDuck | PollerStep(p: nat, lockAvailable: bool)

  predicate Enabled(st: State, a: Action) {
    match a
    case Start(r) => r < |st.rings| && st.rings[r].worker.Down? && !st.rings[r].mirror.Dead?
    case FirstFrame(r) => r < |st.rings| && st.rings[r].worker.Starting?
    case Lose(r) => r < |st.rings| && (st.rings[r].worker.Up? || st.rings[r].worker.Starting?)
    case PublishExit(r) => r < |st.rings| && st.rings[r].worker.PublishedLoss?
    case QueueDuck(r) => r < |st.rings| && st.rings[r].worker.PublishedExit?
    case Finish(r) => r < |st.rings| && st.rings[r].worker.Down?
    case RunDuck => st.queued
    case PollerStep(p, _) => p < |st.pollers| && !st.pollers[p].Gone?
  }

  function WithRing(st: State, r: nat, ring: Ring): State
    requires r < |st.rings|
  {
    st.(rings := st.rings[r := ring])
  }

  function WithPoller(st: State, p: nat, poller: Poller): State
    requires p < |st.pollers|
  {
    st.(pollers := st.pollers[p := poller])
  }

  /** One duck per incident: whoever finds the latch open takes it and queues the duck. */
  function TryLatch(st: State): State { if st.latch then st else st.(latch := true, queued := true) }

  function PollerNext(st: State, p: nat, lockAvailable: bool): State
    requires p < |st.pollers| && !st.pollers[p].Gone?
  {
    match st.pollers[p]
    case Tally(k, pending) =>
      if k < |st.rings| then
        WithPoller(st, p, Tally(k + 1, pending + if Tick(st.rings[k], lockAvailable).IsPending() then 1 else 0))
      else WithPoller(st, p, if pending == 0 then Clear else Tally(0, 0))
    case Clear => WithPoller(st.(latch := false), p, Recheck(0))
    case Recheck(k) =>
      if k >= |st.rings| then WithPoller(st, p, Gone)
      else WithPoller(st, p, if st.rings[k].Settled() then Recheck(k + 1) else Rearm)
    case Rearm => WithPoller(TryLatch(st), p, Gone)
  }

  function Next(st: State, a: Action): State
    requires Enabled(st, a)
  {
    match a
    case Start(r) => WithRing(st, r, st.rings[r].(worker := Starting))
    case FirstFrame(r) => WithRing(st, r, st.rings[r].(worker := Up, mirror := Active, reported := false))
    case Lose(r) => WithRing(st, r, st.rings[r].(worker := PublishedLoss, mirror := Rebuilding,
                                                  reported := st.rings[r].reported && st.rings[r].mirror.Rebuilding?))
    case PublishExit(r) => WithRing(st, r, st.rings[r].(worker := PublishedExit))
    case QueueDuck(r) => WithRing(TryLatch(st), r, st.rings[r].(worker := Down, reported := true))
    case Finish(r) => WithRing(st, r, st.rings[r].(mirror := Dead, reported := false))
    case RunDuck => st.(queued := false, pollers := st.pollers + [Tally(0, 0)])
    case PollerStep(p, lockAvailable) => PollerNext(st, p, lockAvailable)
  }

  ghost predicate Initial(st: State) {
    && !st.latch && !st.queued && st.pollers == []
    && forall r :: 0 <= r < |st.rings| ==> !st.rings[r].reported
  }

  ghost predicate Follows(states: seq<State>, actions: seq<Action>, i: nat)
    requires i < |actions| && |states| == |actions| + 1
  {
    Enabled(states[i], actions[i]) && states[i + 1] == Next(states[i], actions[i])
  }

  ghost predicate IsRun(states: seq<State>, actions: seq<Action>) {
    && |states| == |actions| + 1
    && Initial(states[0])
    && forall i :: 0 <= i < |actions| ==> Follows(states, actions, i)
  }

  // ----- the invariant -----

  predicate Polling(poller: Poller) { poller.Tally? || poller.Clear? }

  ghost predicate PollerAt(st: State, p: nat) { p < |st.pollers| && Polling(st.pollers[p]) }

  /** A duck is queued or its poller is watching. */
  ghost predicate DuckInFlight(st: State) { st.queued || exists p :: PollerAt(st, p) }

  /** The latch is taken exactly while one duck is in flight. */
  ghost predicate LatchInv(st: State) {
    && (st.latch <==> DuckInFlight(st))
    && (st.queued ==> forall p :: 0 <= p < |st.pollers| ==> !Polling(st.pollers[p]))
    && forall p, q :: 0 <= p < q < |st.pollers| ==> !(Polling(st.pollers[p]) && Polling(st.pollers[q]))
  }

  /** The ring is REBUILDING because a worker finished its failure path. */
  predicate NeedsRecovery(ring: Ring) { ring.reported && ring.mirror.Rebuilding? && ring.transport }

  /** A poller between its clear and its return that has yet to look at ring r. */
  predicate WillLookAt(poller: Poller, r: nat) { poller.Rearm? || (poller.Recheck? && poller.k <= r) }

  ghost predicate LookerAt(st: State, p: nat, r: nat) { p < |st.pollers| && WillLookAt(st.pollers[p], r) }

  ghost predicate WatchedInv(st: State) {
    forall r :: 0 <= r < |st.rings| && NeedsRecovery(st.rings[r]) ==> st.latch || exists p :: LookerAt(st, p, r)
  }

  ghost predicate Inv(st: State) { LatchInv(st) && WatchedInv(st) }

  /** The same pollers watch, under the same latch. */
  lemma SameWatch(st: State, st': State)
    requires LatchInv(st) && |st'.pollers| == |st.pollers|
    requires st'.latch == st.latch && st'.queued == st.queued
    requires forall p :: 0 <= p < |st.pollers| ==> (PollerAt(st', p) <==> PollerAt(st, p))
    ensures LatchInv(st')
  {
    assert forall p :: 0 <= p < |st.pollers| ==> (Polling(st'.pollers[p]) <==> PollerAt(st', p));
    assert forall p :: 0 <= p < |st.pollers| ==> (Polling(st.pollers[p]) <==> PollerAt(st, p));
    if p :| PollerAt(st, p) { assert PollerAt(st', p); }
    if p :| PollerAt(st', p) { assert PollerAt(st, p); }
  }

  lemma RingStepKeepsInv(st: State, r: nat, ring: Ring)
    requires Inv(st) && r < |st.rings| && (NeedsRecovery(ring) ==> NeedsRecovery(st.rings[r]))
    ensures Inv(WithRing(st, r, ring))
  {
    var st' := WithRing(st, r, ring);
    SameWatch(st, st');
    forall q | 0 <= q < |st'.rings| && NeedsRecovery(st'.rings[q])
      ensures st'.latch || exists p :: LookerAt(st', p, q)
    {
      if p :| LookerAt(st, p, q) { assert LookerAt(st', p, q); }
    }
  }

  /** After trying the latch a duck is in flight, whoever took it. */
  lemma TryLatchWatches(st: State)
    requires LatchInv(st)
    ensures LatchInv(TryLatch(st)) && TryLatch(st).latch
  {
    if !st.latch {
      forall p | 0 <= p < |st.pollers| ensures !Polling(st.pollers[p]) { assert !PollerAt(st, p); }
    }
  }

  lemma QueueDuckKeepsInv(st: State, r: nat)
    requires Inv(st) && Enabled(st, QueueDuck(r))
    ensures Inv(Next(st, QueueDuck(r)))
  {
    TryLatchWatches(st);
    SameWatch(TryLatch(st), Next(st, QueueDuck(r)));
  }

  lemma RunDuckKeepsInv(st: State)
    requires Inv(st) && st.queued
    ensures Inv(Next(st, RunDuck))
  {
    var st' := Next(st, RunDuck);
    assert PollerAt(st', |st.pollers|);
  }

  /** A poller that keeps watching, and any that is done with the latch, disturbs nobody. */
  lemma PollerMovesOn(st: State, p: nat, poller: Poller)
    requires Inv(st) && p < |st.pollers| && (Polling(st.pollers[p]) <==> Polling(poller))
    requires forall r :: 0 <= r < |st.rings| && NeedsRecovery(st.rings[r]) && WillLookAt(st.pollers[p], r) ==>
               WillLookAt(poller, r)
    ensures Inv(WithPoller(st, p, poller))
  {
    var st' := WithPoller(st, p, poller);
    SameWatch(st, st');
    forall r | 0 <= r < |st'.rings| && NeedsRecovery(st'.rings[r])
      ensures st'.latch || exists q :: LookerAt(st', q, r)
    {
      if q :| LookerAt(st, q, r) { assert LookerAt(st', q, r); }
    }
  }

  lemma ClearKeepsInv(st: State, p: nat)
    requires Inv(st) && p < |st.pollers| && st.pollers[p].Clear?
    ensures Inv(WithPoller(st.(latch := false), p, Recheck(0)))
  {
    var st' := WithPoller(st.(latch := false), p, Recheck(0));
    assert PollerAt(st, p) && !st.queued;
    assert forall q :: 0 <= q < |st.pollers| && q != p ==> !Polling(st.pollers[q]);
    assert forall q :: !PollerAt(st', q);
    forall r | 0 <= r < |st'.rings| && NeedsRecovery(st'.rings[r]) ensures exists q :: LookerAt(st', q, r) {
      assert LookerAt(st', p, r);
    }
  }

  lemma RearmKeepsInv(st: State, p: nat)
    requires Inv(st) && p < |st.pollers| && st.pollers[p].Rearm?
    ensures Inv(WithPoller(TryLatch(st), p, Gone))
  {
    TryLatchWatches(st);
    SameWatch(TryLatch(st), WithPoller(TryLatch(st), p, Gone));
  }

  lemma StepKeepsInv(st: State, a: Action)
    requires Inv(st) && Enabled(st, a)
    ensures Inv(Next(st, a))
  {
    match a {
      case QueueDuck(r) => QueueDuckKeepsInv(st, r);
      case RunDuck => RunDuckKeepsInv(st);
      case PollerStep(p, lockAvailable) =>
        if st.pollers[p].Clear? { ClearKeepsInv(st, p); }
        else if st.pollers[p].Rearm? { RearmKeepsInv(st, p); }
        else { PollerMovesOn(st, p, PollerNext(st, p, lockAvailable).pollers[p]); }
      case _ => RingStepKeepsInv(st, a.r, Next(st, a).rings[a.r]);
    }
  }

  lemma RunsKeepInv(states: seq<State>, actions: seq<Action>, i: nat)
    requires IsRun(states, actions) && i < |states|
    ensures Inv(states[i])
  {
    for k := 0 to i
      invariant Inv(states[k])
    {
      assert Follows(states, actions, k);
      StepKeepsInv(states[k], actions[k]);
    }
  }

  /**
   No recovery is lost, however the failing workers interleave with the poller's exit: a ring that is
   REBUILDING because a worker finished its failure path has a duck in flight, or a poller on its way
   out that has yet to re-read it.
   */
  lemma NoLostRecovery(states: seq<State>, actions: seq<Action>, i: nat, r: nat)
    requires IsRun(states, actions) && i < |states| && r < |states[i].rings|
    requires NeedsRecovery(states[i].rings[r])
    ensures DuckInFlight(states[i]) || exists p :: LookerAt(states[i], p, r)
  {
    RunsKeepInv(states, actions, i);
  }

  /** And the poller that re-reads it puts a duck in flight: once every poller has returned, one is. */
  lemma AfterTheGoodExit(states: seq<State>, actions: seq<Action>, i: nat, r: nat)
    requires IsRun(states, actions) && i < |states| && r < |states[i].rings|
    requires NeedsRecovery(states[i].rings[r])
    requires forall p :: 0 <= p < |states[i].pollers| ==> states[i].pollers[p].Gone? || Polling(states[i].pollers[p])
    ensures states[i].latch && DuckInFlight(states[i])
  {
    NoLostRecovery(states, actions, i, r);
    RunsKeepInv(states, actions, i);
    if p :| LookerAt(states[i], p, r) { assert false; }
  }

  /** The same run with the ring mutexes held by whoever you like. */
  ghost predicate SameButLocks(actions: seq<Action>, others: seq<Action>) {
    && |others| == |actions|
    && forall i :: 0 <= i < |actions| ==>
         others[i] == actions[i]
         || (actions[i].PollerStep? && others[i].PollerStep? && others[i].p == actions[i].p)
  }

  /** A ring mutex, which a live worker pins for its whole life, never decides anything: whoever holds
      the mutexes while the pollers look, the very same run of states unfolds. */
  lemma LocksNeverDecide(states: seq<State>, actions: seq<Action>, others: seq<Action>)
    requires IsRun(states, actions) && SameButLocks(actions, others)
    ensures IsRun(states, others)
  {
    forall i | 0 <= i < |others| ensures Follows(states, others, i) {
      assert Follows(states, actions, i);
      if others[i] != actions[i] && states[i].pollers[actions[i].p].Tally? {
        var k := states[i].pollers[actions[i].p].k;
        if k < |states[i].rings| {
          LockNeverDecides(states[i].rings[k], actions[i].lockAvailable);
          LockNeverDecides(states[i].rings[k], others[i].lockAvailable);
        }
      }
    }
  }

  /** At most one duck is in flight at any time. */
  lemma OneDuckPerIncident(states: seq<State>, actions: seq<Action>, i: nat, p: nat, q: nat)
    requires IsRun(states, actions) && i < |states|
    requires p < |states[i].pollers| && q < |states[i].pollers| && p != q && Polling(states[i].pollers[p])
    ensures !Polling(states[i].pollers[q]) && !states[i].queued && states[i].latch
  {
    RunsKeepInv(states, actions, i);
    assert PollerAt(states[i], p);
  }

  // ----- a poller nobody disturbs -----

  /** How many of the first k rings are not settled. */
  function Unsettled(rings: seq<Ring>, k: nat): nat
    requires k <= |rings|
  {
    if k == 0 then 0 else Unsettled(rings, k - 1) + if rings[k - 1].Settled() then 0 else 1
  }

  lemma {:induction false} NoneUnsettled(rings: seq<Ring>, k: nat)
    requires k <= |rings|
    ensures Unsettled(rings, k) == 0 <==> forall r :: 0 <= r < k ==> rings[r].Settled()
  {
    if k > 0 { NoneUnsettled(rings, k - 1); }
  }

  predicate AllSettled(rings: seq<Ring>) { forall r :: 0 <= r < |rings| ==> rings[r].Settled() }

  /** Where a poller that started its tally in `start` can be when nobody else has moved. */
  predicate QuietPoll(start: State, st: State, p: nat) {
    && st.rings == start.rings && st.queued == start.queued
    && p < |st.pollers| == |start.pollers| && st.pollers == start.pollers[p := st.pollers[p]]
    && match st.pollers[p]
       case Tally(k, pending) => k <= |st.rings| && pending == Unsettled(st.rings, k) && st.latch == start.latch
       case Clear => AllSettled(st.rings) && st.latch == start.latch
       case Recheck(k) => AllSettled(st.rings) && !st.latch && k <= |st.rings|
       case Rearm => false
       case Gone => AllSettled(st.rings) && !st.latch
  }

  /** The steps it has left, at most, when every ring is settled. */
  function PollStepsLeft(n: nat, poller: Poller): nat {
    match poller
    case Tally(k, _) => if k <= n then 2 * n - k + 3 else 0
    case Clear => n + 2
    case Recheck(k) => if k <= n then n - k + 1 else 0
    case Rearm => 0
    case Gone => 0
  }

  lemma QuietPollStep(start: State, st: State, p: nat, lockAvailable: bool)
    requires QuietPoll(start, st, p) && !st.pollers[p].Gone?
    ensures var st' := PollerNext(st, p, lockAvailable);
            && QuietPoll(start, st', p)
            && (AllSettled(st.rings) ==>
                  PollStepsLeft(|st.rings|, st'.pollers[p]) < PollStepsLeft(|st.rings|, st.pollers[p]))
  {
    NoneUnsettled(st.rings, |st.rings|);
    if st.pollers[p].Tally? {
      var k := st.pollers[p].k;
      if k < |st.rings| { LockNeverDecides(st.rings[k], lockAvailable); }
    }
  }

  /** From step i on, poller p, at the start of its tally, is the only one to move. */
  predicate UndisturbedPoll(states: seq<State>, actions: seq<Action>, i: nat, j: nat, p: nat) {
    && i <= j < |states| && j <= |actions|
    && p < |states[i].pollers| && states[i].pollers[p] == Tally(0, 0)
    && forall k :: i <= k < j ==> actions[k].PollerStep? && actions[k].p == p
  }

  /**
   A poller that nobody disturbs and whose rings are all settled lets the latch go and is gone within 2n + 3 of
   its steps on n rings; while any ring is pending it goes on watching and keeps the latch as it is.
   */
  lemma QuietPollerLetsGo(states: seq<State>, actions: seq<Action>, i: nat, j: nat, p: nat)
    requires IsRun(states, actions) && UndisturbedPoll(states, actions, i, j, p)
    ensures states[j].rings == states[i].rings && states[j].queued == states[i].queued && p < |states[j].pollers|
    ensures AllSettled(states[i].rings) ==>
              && j - i <= 2 * |states[i].rings| + 3
              && (j - i == 2 * |states[i].rings| + 3 ==> states[j].pollers[p].Gone? && !states[j].latch)
    ensures !AllSettled(states[i].rings) ==> states[j].pollers[p].Tally? && states[j].latch == states[i].latch
  {
    for k := i to j
      invariant QuietPoll(states[i], states[k], p)
      invariant AllSettled(states[i].rings) ==>
                  PollStepsLeft(|states[i].rings|, states[k].pollers[p]) + (k - i) <= 2 * |states[i].rings| + 3
    {
      assert Follows(states, actions, k);
      QuietPollStep(states[i], states[k], p, actions[k].lockAvailable);
    }
    NoneUnsettled(states[i].rings, |states[i].rings|);
  }
}
