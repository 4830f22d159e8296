/**
 A run in which the record is stale with nobody holding the token: a writer that has used up its
 attempts raises the contention bit after the holder it lost to has already gone.
 */
module CommittedPathsWitness {
  import opened Prelude
  import opened CommittedPaths
  import opened CommittedPathsProofs
  import opened CommittedPathsTheorems

  function Last(states: seq<State>): State
    requires states != []
  {
    states[|states| - 1]
  }

  lemma Advance(states: seq<State>, moves: seq<Move>, mv: Move) returns (ss: seq<State>, ms: seq<Move>)
    requires IsRun(states, moves) && Enabled(Last(states), mv)
    ensures IsRun(ss, ms) && Last(ss) == Do(Last(states), mv)
  {
    ss, ms := states + [Do(Last(states), mv)], moves + [mv];
    forall i | 0 <= i < |ms| ensures Follows(ss, ms, i) {
      if i < |moves| { assert Follows(states, moves, i); }
    }
  }

  lemma HolderLeavesTheWordFree(m: Memory, t: Tid, w: Pc)
    requires Held(m, w) && Holding(w)
    ensures var l := Step(m, t, w);
            l.mem.hist == m.hist && (!Holding(l.pc) ==> l.pc == Idle && l.mem.word == FREE)
  {
  }

  /** A holder left to itself finishes its call and leaves the token word FREE. */
  lemma {:induction false} FinishAlone(states: seq<State>, moves: seq<Move>, t: Tid)
    returns (ss: seq<State>, ms: seq<Move>)
    requires IsRun(states, moves)
    requires t in Last(states).threads && Holding(Last(states).threads[t])
    ensures IsRun(ss, ms)
    ensures Last(ss).threads == Last(states).threads[t := Idle]
    ensures Last(ss).mem.word == FREE && Last(ss).mem.hist == Last(states).mem.hist
    decreases Rank(Last(states).threads[t])
  {
    var s := Last(states);
    RunsKeepInv(states, moves, |moves|);
    StepLowersRank(s.mem, t, s.threads[t]);
    HolderLeavesTheWordFree(s.mem, t, s.threads[t]);
    ss, ms := Advance(states, moves, Run(t));
    assert Last(ss).threads[t := Idle] == s.threads[t := Idle];
    if Holding(Last(ss).threads[t]) { ss, ms := FinishAlone(ss, ms, t); }
  }

  /** Thread t, idle, begins an update while the token is out and is turned away before flagging. */
  lemma LoseAnAttempt(states: seq<State>, moves: seq<Move>, t: Tid, u: Update, k: nat)
    returns (ss: seq<State>, ms: seq<Move>)
    requires IsRun(states, moves) && t in Last(states).threads
    requires Last(states).threads[t] == Acquire(u, k) && Last(states).mem.word == Word(true, true)
    ensures IsRun(ss, ms) && Last(ss).mem == Last(states).mem
    ensures Last(ss).threads ==
              Last(states).threads[t := if k + 1 < ACQUIRE_ATTEMPTS then Acquire(u, k + 1) else ForceFlag(u)]
  {
    RunsKeepInv(states, moves, |moves|);
    ss, ms := Advance(states, moves, Run(t));
    ss, ms := Advance(ss, ms, Run(t));
  }

  function Commit(monitor: nat): Update { Apply([(monitor, CommittedMode(1920, 1080, 60_000))], 1) }

  /** Writer 1 takes the token. */
  lemma FirstHolds() returns (ss: seq<State>, ms: seq<Move>)
    ensures IsRun(ss, ms)
    ensures Last(ss).threads.Keys == {1, 2, 3} && Last(ss).mem.word == Word(true, false)
    ensures Holding(Last(ss).threads[1])
    ensures Last(ss).threads[2] == Idle && Last(ss).threads[3] == Idle
  {
    var m := Memory(seq(SLOTS, i => Slot(0, EMPTY)), 0, 0, FREE,
                    None, [], 0, Nothing(), seq(SLOTS, i => [EMPTY]), seq(SLOTS, i => 0));
    ss, ms := [State(m, map[1 := Idle, 2 := Idle, 3 := Idle])], [];
    ss, ms := Advance(ss, ms, Begin(1, Write(Commit(1))));
    ss, ms := Advance(ss, ms, Run(1));
  }

  /** Writer 2 loses to it and flags it. */
  lemma SecondFlags() returns (ss: seq<State>, ms: seq<Move>)
    ensures IsRun(ss, ms)
    ensures Last(ss).threads.Keys == {1, 2, 3} && Last(ss).mem.word == Word(true, true)
    ensures Holding(Last(ss).threads[1])
    ensures Last(ss).threads[2] == Idle && Last(ss).threads[3] == Idle
  {
    ss, ms := FirstHolds();
    RunsKeepInv(ss, ms, |ms|);
    ss, ms := Advance(ss, ms, Begin(2, Write(Commit(2))));
    ss, ms := Advance(ss, ms, Run(2));
    ss, ms := Advance(ss, ms, Run(2));
    ss, ms := Advance(ss, ms, Run(2));
  }

  /** Writer 3 loses every attempt. */
  lemma AttemptsUsedUp() returns (ss: seq<State>, ms: seq<Move>)
    ensures IsRun(ss, ms)
    ensures Last(ss).threads.Keys == {1, 2, 3}
    ensures Holding(Last(ss).threads[1])
    ensures Last(ss).threads[2] == Idle && Last(ss).threads[3] == ForceFlag(Commit(3))
  {
    ss, ms := SecondFlags();
    RunsKeepInv(ss, ms, |ms|);
    ss, ms := Advance(ss, ms, Begin(3, Write(Commit(3))));
    ss, ms := LoseAnAttempt(ss, ms, 3, Commit(3), 0);
    ss, ms := LoseAnAttempt(ss, ms, 3, Commit(3), 1);
    ss, ms := LoseAnAttempt(ss, ms, 3, Commit(3), 2);
    ss, ms := LoseAnAttempt(ss, ms, 3, Commit(3), 3);
  }

  lemma OutcomeAfterCommit(h: seq<Event>)
    requires h != [] && h[|h| - 1] == Took(Commit(2), false)
    ensures Lookup(Outcome(h), 2) == Some(CommittedMode(1920, 1080, 60_000))
    ensures Outcome(h + [Missed(Commit(3))]) == Nothing()
  {
    assert Outcome(h)[0] == PathPayload(Commit(2).paths, 0);
    UnpackPacked(2, CommittedMode(1920, 1080, 60_000));
    assert (h + [Missed(Commit(3))])[..|h|] == h;
  }

  /** Everybody but writer 3 is done, and monitor 2's commit is what the record holds. */
  lemma SecondCommits() returns (ss: seq<State>, ms: seq<Move>)
    ensures IsRun(ss, ms)
    ensures 3 in Last(ss).threads && Last(ss).threads[3] == ForceFlag(Commit(3))
    ensures var m := Last(ss).mem;
            && m.word == FREE
            && m.hist != [] && m.hist[|m.hist| - 1] == Took(Commit(2), false)
  {
    ss, ms := AttemptsUsedUp();
    ss, ms := FinishAlone(ss, ms, 1);
    RunsKeepInv(ss, ms, |ms|);
    ss, ms := Advance(ss, ms, Begin(2, Write(Commit(2))));
    ss, ms := Advance(ss, ms, Run(2));
    ss, ms := FinishAlone(ss, ms, 2);
  }

  /**
   The obvious claim is false: with nobody holding the token the record can be non-empty and out of
   date. It still shows monitor 2 alone although a later commit of monitor 3 has been dropped.
   */
  lemma StaleRecordIsReachable() returns (ss: seq<State>, ms: seq<Move>)
    ensures IsRun(ss, ms)
    ensures var m := Last(ss).mem;
            && m.word == Word(false, true)
            && |m.hist| > 0 && m.hist[|m.hist| - 1] == Missed(Commit(3))
            && Lookup(Contents(m.slots), 2) == Some(CommittedMode(1920, 1080, 60_000))
            && Outcome(m.hist) == Nothing()
  {
    ss, ms := SecondCommits();
    FreeRecordIsAccountedFor(ss, ms, |ms|);
    OutcomeAfterCommit(Last(ss).mem.hist);
    RunsKeepInv(ss, ms, |ms|);
    ss, ms := Advance(ss, ms, Run(3));
  }
}
