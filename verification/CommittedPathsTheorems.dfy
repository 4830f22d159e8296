/** The statements about whole runs of the committed-mode record. */
module CommittedPathsTheorems {
  import opened Prelude
  import opened CommittedPaths
  import opened CommittedPathsProofs

  // ----- one writer -----

  /** At most one thread holds the token, and the slots change only in its hands. */
  lemma OneWriter(states: seq<State>, moves: seq<Move>, i: nat, t: Tid, u: Tid)
    requires IsRun(states, moves) && i < |moves|
    requires t in states[i].threads && u in states[i].threads
    ensures Holding(states[i].threads[t]) && Holding(states[i].threads[u]) ==> t == u
    ensures states[i].mem.word.writing <==>
            exists v :: v in states[i].threads && Holding(states[i].threads[v])
    ensures states[i + 1].mem.slots != states[i].mem.slots ==>
              moves[i].Run? && moves[i].tid in states[i].threads &&
              Holding(states[i].threads[moves[i].tid])
  {
    RunsKeepInv(states, moves, i);
    assert Follows(states, moves, i);
  }

  // ----- the record while the token word is free -----

  /**
   Whenever the token word is FREE the record is the outcome of its whole history: nobody's
   turned-away update is left unaccounted for.
   */
  lemma FreeRecordIsAccountedFor(states: seq<State>, moves: seq<Move>, i: nat)
    requires IsRun(states, moves) && i < |states|
    requires states[i].mem.word == FREE
    ensures Contents(states[i].mem.slots) == Outcome(states[i].mem.hist)
    ensures forall k :: 0 <= k < SLOTS ==> states[i].mem.slots[k].version % 2 == 0
  {
    RunsKeepInv(states, moves, i);
    var m := states[i].mem;
    assert m.hist[..m.mark] == m.hist;
    NobodyWritingIsCurrent(m);
  }

  /**
   With nobody holding the token the record is the outcome of the history up to the last release,
   and it is missing updates exactly when the contention bit is up: those turned away since then.
   */
  lemma UnheldRecordMissesExactlyTheFlagged(states: seq<State>, moves: seq<Move>, i: nat)
    requires IsRun(states, moves) && i < |states|
    requires !states[i].mem.word.writing
    ensures var m := states[i].mem;
            && m.mark <= |m.hist|
            && Contents(m.slots) == Outcome(m.hist[..m.mark])
            && (forall k :: m.mark <= k < |m.hist| ==> m.hist[k].Missed?)
            && (m.word.contended <==> m.mark < |m.hist|)
  {
    RunsKeepInv(states, moves, i);
  }

  // ----- what an outcome is -----

  predicate IsCommit(e: Event) { e.Took? && e.update.Apply? }

  predicate Spoils(e: Event) { e.Missed? || e.flagged }

  predicate Forgets(e: Event, mon: nat) { e.Took? && e.update == Forget(mon) }

  /** k is the last commit that held the token. */
  ghost predicate LastCommit(h: seq<Event>, k: nat) {
    k < |h| && IsCommit(h[k]) && forall j :: k < j < |h| ==> !IsCommit(h[j])
  }

  ghost predicate SpoiledSince(h: seq<Event>, k: nat) { exists j :: k <= j < |h| && Spoils(h[j]) }

  ghost predicate ForgottenSince(h: seq<Event>, k: nat, mon: nat) {
    exists j :: k < j < |h| && Forgets(h[j], mon)
  }

  lemma {:induction false} ReplayOfCommit(h: seq<Event>, k: nat)
    requires LastCommit(h, k)
    ensures Replay(h).spoiled <==> SpoiledSince(h, k)
    ensures forall i :: 0 <= i < SLOTS ==>
              var p := PathPayload(h[k].update.paths, i);
              Replay(h).record[i] == if ForgottenSince(h, k, p.monitor) then EMPTY else p
  {
    var n := |h| - 1;
    var g, e := h[..n], h[n];
    if k < n {
      assert LastCommit(g, k);
      ReplayOfCommit(g, k);
      assert SpoiledSince(h, k) <==> SpoiledSince(g, k) || Spoils(e) by {
        if SpoiledSince(g, k) {
          var j :| k <= j < |g| && Spoils(g[j]);
          assert Spoils(h[j]);
        }
        if Spoils(e) { assert Spoils(h[n]); }
      }
      forall mon: nat
        ensures ForgottenSince(h, k, mon) <==> ForgottenSince(g, k, mon) || Forgets(e, mon)
      {
        if ForgottenSince(g, k, mon) {
          var j :| k < j < |g| && Forgets(g[j], mon);
          assert Forgets(h[j], mon);
        }
        if Forgets(e, mon) { assert Forgets(h[n], mon); }
      }
    } else {
      assert Spoils(e) ==> SpoiledSince(h, k);
    }
  }

  lemma {:induction false} ReplayWithoutCommit(h: seq<Event>)
    requires forall j :: 0 <= j < |h| ==> !IsCommit(h[j])
    ensures Replay(h).record == Nothing()
  {
    if h != [] { ReplayWithoutCommit(h[..|h| - 1]); }
  }

  /**
   The outcome in plain words: nothing at all if there was no commit, or if anybody was turned away
   (or a leftover flag was inherited) since the last one; else that commit less the monitors
   forgotten since.
   */
  lemma OutcomeMeaning(h: seq<Event>)
    ensures (forall j :: 0 <= j < |h| ==> !IsCommit(h[j])) ==> Outcome(h) == Nothing()
    ensures forall k: nat :: LastCommit(h, k) && SpoiledSince(h, k) ==> Outcome(h) == Nothing()
    ensures forall k: nat, i :: LastCommit(h, k) && !SpoiledSince(h, k) && 0 <= i < SLOTS ==>
              var p := PathPayload(h[k].update.paths, i);
              Outcome(h)[i] == if ForgottenSince(h, k, p.monitor) then EMPTY else p
  {
    if forall j :: 0 <= j < |h| ==> !IsCommit(h[j]) { ReplayWithoutCommit(h); }
    forall k: nat | LastCommit(h, k)
      ensures SpoiledSince(h, k) ==> Outcome(h) == Nothing()
      ensures forall i :: !SpoiledSince(h, k) && 0 <= i < SLOTS ==>
                var p := PathPayload(h[k].update.paths, i);
                Outcome(h)[i] == if ForgottenSince(h, k, p.monitor) then EMPTY else p
    {
      ReplayOfCommit(h, k);
    }
  }

  // ----- readers -----

  lemma UnpackPacked(monitor: nat, mode: CommittedMode)
    ensures UnpackMode(Payload(monitor, PackSize(mode), mode.refreshMillihz)) == mode
  {
    assert PackSize(mode) / 0x1_0000_0000 == mode.width;
  }

  /**
   No phantom: a mode a read returned for a monitor stood beside that monitor in one single
   commit, and the slot held that pairing when the call began or was given it later.
   */
  lemma NoPhantom(states: seq<State>, moves: seq<Move>, i: nat, t: Tid)
    requires IsRun(states, moves) && i < |states|
    requires t in states[i].threads
    requires states[i].threads[t].Answered? && states[i].threads[t].answer.Some?
    ensures var m, a := states[i].mem, states[i].threads[t];
            && Shaped(m) && |a.from| == SLOTS && a.slot < SLOTS && a.nth < |m.published[a.slot]|
            && a.from[a.slot] <= 2 * a.nth
            && exists j :: 0 <= j < |m.hist| && IsCommit(m.hist[j]) &&
                           a.slot < |m.hist[j].update.paths| &&
                           m.hist[j].update.paths[a.slot] == (a.monitor, a.answer.value)
  {
    RunsKeepInv(states, moves, i);
    var m, a := states[i].mem, states[i].threads[t];
    assert ThreadOk(m, a);
    var p := m.published[a.slot][a.nth];
    assert FromCommit(m.hist, a.slot, p);
    var j :| 0 <= j < |m.hist| && m.hist[j].Took? && m.hist[j].update.Apply? &&
             PathPayload(m.hist[j].update.paths, a.slot) == p;
    assert IsCommit(m.hist[j]);
    UnpackPacked(a.monitor, m.hist[j].update.paths[a.slot].1);
  }

  /** With no writer now and the same generation as then, no slot has changed in between. */
  lemma SameGenerationSameSlots(states: seq<State>, moves: seq<Move>, i: nat, j: nat)
    requires IsRun(states, moves) && i <= j < |states|
    requires states[i].mem.generation == states[j].mem.generation
    requires !states[j].mem.word.writing
    ensures states[i].mem.slots == states[j].mem.slots
    ensures states[i].mem.published == states[j].mem.published
  {
    RunsKeepInv(states, moves, i);
    RunsKeepInv(states, moves, j);
    RunsEvolve(states, moves, i, j);
    var m, m' := states[i].mem, states[j].mem;
    NobodyWritingIsCurrent(m');
    CurrentWasCurrent(m, m', m.generation);
    assert forall k :: 0 <= k < SLOTS ==> SlotOk(m, HolderPc(states[i]), k) && SlotOk(m', Idle, k);
    forall k | 0 <= k < SLOTS ensures m.published[k] == m'.published[k] {
      assert SlotOk(m, HolderPc(states[i]), k) && SlotOk(m', Idle, k);
    }
  }

  lemma NobodyWritingIsCurrent(m: Memory)
    requires WriterInv(m, Idle) && m.owner.None?
    ensures Current(m, m.generation)
  {
    forall k | 0 <= k < SLOTS ensures m.slots[k].version % 2 == 0 {
      assert SlotOk(m, Idle, k);
    }
  }

  /**
   An answer is exact for as long as its token is: a call answered at step i; while the generation still
   equals its token and nobody is writing, at step i or at any step j after it, the answer is the mode
   the record holds for that monitor then.
   */
  lemma TokenKeepsAnswerExact(states: seq<State>, moves: seq<Move>, i: nat, j: nat, t: Tid)
    requires IsRun(states, moves) && i <= j < |states|
    requires t in states[i].threads && states[i].threads[t].Answered?
    requires states[i].threads[t].token == Some(states[j].mem.generation)
    requires !states[j].mem.word.writing
    ensures var a := states[i].threads[t];
            a.answer == Lookup(Contents(states[j].mem.slots), a.monitor)
  {
    RunsKeepInv(states, moves, i);
    RunsKeepInv(states, moves, j);
    RunsEvolve(states, moves, i, j);
    var m, m' := states[i].mem, states[j].mem;
    NobodyWritingIsCurrent(m');
    assert ThreadOk(m, states[i].threads[t]);
    CurrentWasCurrent(m, m', m'.generation);
  }

  // ----- nobody waits -----

  function StageRank(stage: Stage): nat {
    match stage
    case LoadVersion => 6
    case StoreOdd => 5
    case StoreMonitor => 4
    case StoreSize => 3
    case StoreRefresh => 2
    case StoreEven => 1
  }

  function ReadRank(tries: nat, look: Look): nat {
    (if tries < READ_RETRIES then (READ_RETRIES - 1 - tries) * 5 else 0) +
    match look
    case LookVersion => 5
    case LookMonitor(_) => 4
    case LookSize(_, _) => 3
    case LookRefresh(_, _, _) => 2
    case LookAgain(_, _, _, _) => 1
  }

  /** Own steps left in the release from attempt k on, plus two for the unconditional one. */
  function ReleaseRank(k: nat): nat {
    2 + 100 * if k < RELEASE_ATTEMPTS then RELEASE_ATTEMPTS - k else 1
  }

  /** A bound on the steps the thread itself still has to take in its call. */
  function Rank(pc: Pc): int {
    match pc
    case Idle => 0
    case Answered(_, _, _, _, _, _) => 0
    case Acquire(_, k) => 820 + 2 * if k < ACQUIRE_ATTEMPTS then ACQUIRE_ATTEMPTS - k else 0
    case Flag(_, k) => 819 + 2 * if k < ACQUIRE_ATTEMPTS then ACQUIRE_ATTEMPTS - k else 0
    case ForceFlag(_) => 2
    case BumpTurnedAway => 1
    case Publish(Applying(_, _), i, stage, _) => 404 + (SLOTS - 1 - i) * 6 + StageRank(stage)
    case Publish(Forgetting(_), i, stage, _) => 403 + (SLOTS - 1 - i) * 26 + StageRank(stage)
    case Publish(Clearing(k), i, stage, _) => ReleaseRank(k) - 99 + (SLOTS - 1 - i) * 6 + StageRank(stage)
    case Scan(_, i, tries, look) => 403 + (SLOTS - 1 - i) * 26 + 6 + ReadRank(tries, look)
    case StoreActive(_) => 404
    case EndWrite => 403
    case ReleaseBump(k) => ReleaseRank(k)
    case ReleaseCas(k) => ReleaseRank(k) - 1
    case ReleaseUnflag(k) => ReleaseRank(k) - 2
    case ReleaseStoreActive(k) => ReleaseRank(k) - 99
    case FinalBump => 2
    case FinalStore => 1
    case TokenLoad(_) => 321
    case Get(_, _, _, i, tries, look) => (SLOTS - 1 - i) * 20 + ReadRank(tries, look)
  }

  const LONGEST_CALL: nat := 828

  lemma PublishLowersRank(m: Memory, t: Tid, pc: Pc)
    requires Shaped(m) && InBounds(pc) && pc.Publish?
    ensures InBounds(Step(m, t, pc).pc)
    ensures 0 <= Rank(Step(m, t, pc).pc) < Rank(pc) <= LONGEST_CALL
  {
    match pc.job
    case Applying(_, _) =>
    case Forgetting(_) =>
    case Clearing(_) =>
  }

  lemma ReadLowersRank(m: Memory, t: Tid, pc: Pc)
    requires Shaped(m) && InBounds(pc) && (pc.Scan? || pc.Get?)
    ensures InBounds(Step(m, t, pc).pc)
    ensures 0 <= Rank(Step(m, t, pc).pc) < Rank(pc) <= LONGEST_CALL
  {
    match Observe(m.slots[pc.slot], pc.look)
    case More(_) =>
    case Again =>
    case Found(_, _) =>
  }

  lemma StepLowersRank(m: Memory, t: Tid, pc: Pc)
    requires Shaped(m) && InBounds(pc) && !Ready(pc)
    ensures InBounds(Step(m, t, pc).pc)
    ensures 0 <= Rank(Step(m, t, pc).pc) < Rank(pc) <= LONGEST_CALL
  {
    if pc.Publish? { PublishLowersRank(m, t, pc); }
    else if pc.Scan? || pc.Get? { ReadLowersRank(m, t, pc); }
  }

  /** How many of the moves are steps of thread t. */
  function OwnSteps(moves: seq<Move>, t: Tid): nat {
    if moves == [] then 0
    else OwnSteps(moves[..|moves| - 1], t) + if moves[|moves| - 1] == Run(t) then 1 else 0
  }

  lemma MoveLowersRank(s: State, mv: Move, t: Tid)
    requires Inv(s) && Enabled(s, mv) && t in s.threads && !Ready(s.threads[t])
    ensures t in Do(s, mv).threads
    ensures Rank(Do(s, mv).threads[t]) + (if mv == Run(t) then 1 else 0) <= Rank(s.threads[t])
  {
    if mv == Run(t) { StepLowersRank(s.mem, t, s.threads[t]); }
  }

  lemma {:induction false} OwnStepsAreCounted(ranks: seq<int>, moves: seq<Move>, t: Tid)
    requires |ranks| == |moves| + 1
    requires forall k :: 0 <= k < |moves| ==>
               ranks[k + 1] + (if moves[k] == Run(t) then 1 else 0) <= ranks[k]
    ensures OwnSteps(moves, t) + ranks[|moves|] <= ranks[0]
  {
    var n := |moves|;
    if n > 0 { OwnStepsAreCounted(ranks[..n], moves[..n - 1], t); }
  }

  lemma RankDrops(states: seq<State>, moves: seq<Move>, i: nat, t: Tid)
    requires IsRun(states, moves) && i < |moves|
    requires t in states[i].threads && !Ready(states[i].threads[t])
    ensures t in states[i + 1].threads
    ensures Rank(states[i + 1].threads[t]) + (if moves[i] == Run(t) then 1 else 0) <= Rank(states[i].threads[t])
  {
    RunsKeepInv(states, moves, i);
    assert Follows(states, moves, i);
    MoveLowersRank(states[i], moves[i], t);
  }

  lemma RankIsPositive(states: seq<State>, moves: seq<Move>, i: nat, t: Tid)
    requires IsRun(states, moves) && i < |states|
    requires t in states[i].threads && !Ready(states[i].threads[t])
    ensures Enabled(states[i], Run(t))
    ensures 0 < Rank(states[i].threads[t]) <= LONGEST_CALL
  {
    RunsKeepInv(states, moves, i);
    StepLowersRank(states[i].mem, t, states[i].threads[t]);
  }

  /** The rank of thread t along a run in which its call is not finished. */
  lemma {:induction false} RanksAlong(states: seq<State>, moves: seq<Move>, i: nat, j: nat, t: Tid)
    returns (ranks: seq<int>)
    requires IsRun(states, moves) && i <= j < |states|
    requires forall k :: i <= k <= j ==> t in states[k].threads && !Ready(states[k].threads[t])
    ensures Enabled(states[j], Run(t))
    ensures |ranks| == j - i + 1
    ensures ranks[0] <= LONGEST_CALL && 0 < ranks[j - i] == Rank(states[j].threads[t])
    ensures forall k :: 0 <= k < j - i ==>
              ranks[k + 1] + (if moves[i + k] == Run(t) then 1 else 0) <= ranks[k]
    decreases j - i
  {
    RankIsPositive(states, moves, j, t);
    if i == j {
      ranks := [Rank(states[j].threads[t])];
    } else {
      var earlier := RanksAlong(states, moves, i, j - 1, t);
      RankDrops(states, moves, j - 1, t);
      ranks := earlier + [Rank(states[j].threads[t])];
    }
  }

  /**
   Nobody ever waits: however the others are scheduled, a call that is still unfinished has a step
   it can take, and has taken fewer than LONGEST_CALL steps of its own.
   */
  lemma CallsAreWaitFree(states: seq<State>, moves: seq<Move>, i: nat, j: nat, t: Tid)
    requires IsRun(states, moves) && i <= j < |states|
    requires forall k :: i <= k <= j ==> t in states[k].threads && !Ready(states[k].threads[t])
    ensures Enabled(states[j], Run(t))
    ensures OwnSteps(moves[i..j], t) < LONGEST_CALL
  {
    var ranks := RanksAlong(states, moves, i, j, t);
    OwnStepsAreCounted(ranks, moves[i..j], t);
  }
}
