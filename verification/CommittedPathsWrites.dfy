/** What every write call leaves behind, whether it took the token or was turned away. */
module CommittedPathsWrites {
  import opened Prelude
  import opened CommittedPaths
  import opened CommittedPathsProofs
  import opened Counting

  // ----- a call moves the generation and is on record -----

  /** Inside a write call that has yet to bump the generation. */
  predicate OwesABump(pc: Pc) {
    match pc
    case Acquire(_, _) => true
    case Flag(_, _) => true
    case ForceFlag(_) => true
    case BumpTurnedAway => true
    case Publish(job, _, _, _) => !job.Clearing?
    case Scan(_, _, _, _) => true
    case StoreActive(_) => true
    case EndWrite => true
    case ReleaseBump(_) => true
    case _ => false
  }

  lemma BumpComes(m: Memory, t: Tid, pc: Pc)
    requires Shaped(m) && InBounds(pc) && OwesABump(pc)
    ensures var l := Step(m, t, pc); OwesABump(l.pc) || l.mem.generation > m.generation
  {
  }

  /** Still asking for the token with update u. */
  predicate Asks(pc: Pc, u: Update) {
    (pc.Acquire? || pc.Flag? || pc.ForceFlag?) && pc.update == u
  }

  /** From position h on the history has an event of update u. */
  ghost predicate OnRecord(hist: seq<Event>, h: nat, u: Update) {
    exists k :: h <= k < |hist| && hist[k].update == u
  }

  lemma AskingGetsOnRecord(m: Memory, t: Tid, pc: Pc, h: nat, u: Update)
    requires Shaped(m) && InBounds(pc) && Asks(pc, u) && h <= |m.hist|
    ensures var l := Step(m, t, pc); Asks(l.pc, u) || OnRecord(l.mem.hist, h, u)
  {
    var l := Step(m, t, pc);
    if !Asks(l.pc, u) { assert l.mem.hist[|m.hist|].update == u; }
  }

  lemma RecordStays(hist: seq<Event>, hist': seq<Event>, h: nat, u: Update)
    requires OnRecord(hist, h, u) && hist <= hist'
    ensures OnRecord(hist', h, u)
  {
    var k :| h <= k < |hist| && hist[k].update == u;
    assert hist'[k] == hist[k];
  }

  /** Thread t begins to write u at step i, and is first back at step j. */
  ghost predicate WriteCall(states: seq<State>, moves: seq<Move>, i: nat, j: nat, t: Tid, u: Update) {
    && i < j < |states| && i < |moves| && moves[i] == Begin(t, Write(u))
    && (forall k :: i < k <= j ==> t in states[k].threads)
    && (forall k :: i < k < j ==> !Ready(states[k].threads[t]))
    && Ready(states[j].threads[t])
  }

  /** Where the call stands on the way. */
  ghost predicate UnderWay(s: State, t: Tid, u: Update, g: nat, h: nat) {
    && t in s.threads && s.mem.generation >= g && |s.mem.hist| >= h
    && (OwesABump(s.threads[t]) || s.mem.generation > g)
    && (Asks(s.threads[t], u) || OnRecord(s.mem.hist, h, u))
  }

  lemma CallGoesOn(s: State, mv: Move, t: Tid, u: Update, g: nat, h: nat)
    requires Inv(s) && Enabled(s, mv) && UnderWay(s, t, u, g, h) && !Ready(s.threads[t])
    ensures UnderWay(Do(s, mv), t, u, g, h)
  {
    MoveKeepsInv(s, mv);
    var s' := Do(s, mv);
    if mv.tid == t {
      var pc := s.threads[t];
      if OwesABump(pc) { BumpComes(s.mem, t, pc); }
      if Asks(pc, u) { AskingGetsOnRecord(s.mem, t, pc, h, u); }
    }
    if OnRecord(s.mem.hist, h, u) { RecordStays(s.mem.hist, s'.mem.hist, h, u); }
  }

  lemma {:induction false} CallIsUnderWay(states: seq<State>, moves: seq<Move>, i: nat, k: nat, j: nat, t: Tid, u: Update)
    requires IsRun(states, moves) && WriteCall(states, moves, i, j, t, u) && i < k <= j
    ensures UnderWay(states[k], t, u, states[i].mem.generation, |states[i].mem.hist|)
    decreases k
  {
    assert Follows(states, moves, k - 1);
    if k > i + 1 {
      CallIsUnderWay(states, moves, i, k - 1, j, t, u);
      RunsKeepInv(states, moves, k - 1);
      CallGoesOn(states[k - 1], moves[k - 1], t, u, states[i].mem.generation, |states[i].mem.hist|);
    }
  }

  /**
   However a write call ends, taken or turned away, by the time it returns the generation has moved and the
   update is on record: every answer and every refusal that rests on an earlier token is void.
   */
  lemma WriteMovesTheGeneration(states: seq<State>, moves: seq<Move>, i: nat, j: nat, t: Tid, u: Update)
    requires IsRun(states, moves) && WriteCall(states, moves, i, j, t, u)
    ensures states[j].mem.generation > states[i].mem.generation
    ensures OnRecord(states[j].mem.hist, |states[i].mem.hist|, u)
  {
    CallIsUnderWay(states, moves, i, j, j, t, u);
  }

  /** An answer read before the call has a token no later generation equals. */
  lemma EarlierTokenNeverReturns(states: seq<State>, moves: seq<Move>, p: nat, i: nat, j: nat, now: nat, t: Tid, u: Update,
                                 reader: Tid)
    requires IsRun(states, moves) && WriteCall(states, moves, i, j, t, u) && p <= i && j <= now < |states|
    requires reader in states[p].threads && states[p].threads[reader].Answered?
    requires states[p].threads[reader].token.Some?
    ensures states[p].threads[reader].token.value < states[now].mem.generation
  {
    WriteMovesTheGeneration(states, moves, i, j, t, u);
    RunsKeepInv(states, moves, p);
    assert ThreadOk(states[p].mem, states[p].threads[reader]);
    RunsEvolve(states, moves, p, i);
    RunsEvolve(states, moves, j, now);
  }

  // ----- nobody gives up early -----

  /** The steps at which thread t asked for the token and found it taken. */
  ghost function FoundTaken(states: seq<State>, moves: seq<Move>, t: Tid): seq<bool>
    requires |states| == |moves| + 1
  {
    seq(|moves|, k requires 0 <= k < |moves| =>
      moves[k] == Run(t) && t in states[k].threads && states[k].threads[t].Acquire? && states[k].mem.word.writing)
  }

  /** Thread t began a call at step i and is still in it at step n. */
  ghost predicate InCall(states: seq<State>, moves: seq<Move>, i: nat, n: nat, t: Tid, call: Call) {
    && i < n < |states| && i < |moves| && moves[i] == Begin(t, call)
    && forall k :: i < k <= n ==> t in states[k].threads && !Ready(states[k].threads[t])
  }

  predicate AttemptsAre(pc: Pc, count: nat) {
    match pc
    case Acquire(_, k) => k == count < ACQUIRE_ATTEMPTS
    case Flag(_, k) => k + 1 == count <= ACQUIRE_ATTEMPTS
    case ForceFlag(_) => count == ACQUIRE_ATTEMPTS
    case _ => true
  }

  lemma OneAttempt(m: Memory, t: Tid, pc: Pc, count: nat)
    requires Shaped(m) && InBounds(pc) && AttemptsAre(pc, count)
    ensures AttemptsAre(Step(m, t, pc).pc, if pc.Acquire? && m.word.writing then count + 1 else count)
  {
  }

  lemma {:induction false} AttemptsAreCounted(states: seq<State>, moves: seq<Move>, i: nat, n: nat, t: Tid, u: Update)
    requires IsRun(states, moves) && InCall(states, moves, i, n, t, Write(u))
    ensures AttemptsAre(states[n].threads[t], Count(FoundTaken(states, moves, t), i, n))
    decreases n
  {
    assert Follows(states, moves, n - 1);
    if n > i + 1 {
      AttemptsAreCounted(states, moves, i, n - 1, t, u);
      if moves[n - 1].tid == t {
        OneAttempt(states[n - 1].mem, t, states[n - 1].threads[t], Count(FoundTaken(states, moves, t), i, n - 1));
      }
    } else {
      assert Count(FoundTaken(states, moves, t), i, i) == 0;
    }
  }

  /** A write forces the flag up only after it has found the token taken four times. */
  lemma ForcedOnlyAfterFourAttempts(states: seq<State>, moves: seq<Move>, i: nat, n: nat, t: Tid, u: Update)
    requires IsRun(states, moves) && InCall(states, moves, i, n, t, Write(u)) && states[n].threads[t].ForceFlag?
    ensures Count(FoundTaken(states, moves, t), i, n) == 4
  {
    AttemptsAreCounted(states, moves, i, n, t, u);
  }

  /** The steps at which thread t's look at slot s came apart. */
  ghost function TornLooks(states: seq<State>, moves: seq<Move>, t: Tid, s: nat): seq<bool>
    requires |states| == |moves| + 1
  {
    seq(|moves|, k requires 0 <= k < |moves| => moves[k] == Run(t) && TornAt(states[k], t, s))
  }

  predicate TornAt(st: State, t: Tid, s: nat) {
    && t in st.threads && st.threads[t].Get? && st.threads[t].slot == s && s < |st.mem.slots|
    && Observe(st.mem.slots[s], st.threads[t].look).Again?
  }

  /** Slots not yet reached have not been looked at; the one being read was torn `tries` times. */
  predicate TriesAre(pc: Pc, s: nat, count: nat) {
    match pc
    case TokenLoad(_) => count == 0
    case Get(_, _, _, i, tries, _) => (i < s ==> count == 0) && (i == s ==> count == tries < READ_RETRIES)
    case _ => true
  }

  lemma OneLook(st: State, t: Tid, s: nat, count: nat)
    requires Shaped(st.mem) && t in st.threads && InBounds(st.threads[t])
    requires (st.threads[t].Get? || st.threads[t].TokenLoad?) && TriesAre(st.threads[t], s, count)
    ensures TriesAre(Step(st.mem, t, st.threads[t]).pc, s, if TornAt(st, t, s) then count + 1 else count)
  {
  }

  lemma {:induction false} TriesAreCounted(states: seq<State>, moves: seq<Move>, i: nat, n: nat, t: Tid, call: Call, s: nat)
    requires IsRun(states, moves) && InCall(states, moves, i, n, t, call) && !call.Write?
    ensures states[n].threads[t].Get? || states[n].threads[t].TokenLoad?
    ensures TriesAre(states[n].threads[t], s, Count(TornLooks(states, moves, t, s), i, n))
    decreases n
  {
    assert Follows(states, moves, n - 1);
    if n > i + 1 {
      TriesAreCounted(states, moves, i, n - 1, t, call, s);
      if moves[n - 1].tid == t { OneLook(states[n - 1], t, s, Count(TornLooks(states, moves, t, s), i, n - 1)); }
    } else {
      assert Count(TornLooks(states, moves, t, s), i, i) == 0;
    }
  }

  /** A read passes over a slot it could not make out only when four looks at it came apart. */
  lemma PassedOverOnlyAfterFourLooks(states: seq<State>, moves: seq<Move>, i: nat, n: nat, t: Tid, call: Call, s: nat)
    requires IsRun(states, moves) && InCall(states, moves, i, n, t, call) && !call.Write? && n < |moves|
    requires moves[n] == Run(t) && TornAt(states[n], t, s)
    ensures t in states[n + 1].threads
    ensures var pc := states[n + 1].threads[t];
            !(pc.Get? && pc.slot == s) ==> Count(TornLooks(states, moves, t, s), i, n + 1) == 4
  {
    TriesAreCounted(states, moves, i, n, t, call, s);
    assert Follows(states, moves, n);
  }

  // ----- the active count -----

  /** The count of the last commit that took the token. */
  function LastTotal(h: seq<Event>): nat {
    if h == [] then 0
    else
      match h[|h| - 1]
      case Took(Apply(_, total), _) => total
      case _ => LastTotal(h[..|h| - 1])
  }

  /** The count that goes with the outcome of a history: none when the record was cleared. */
  function CountOf(h: seq<Event>): nat { if Replay(h).spoiled then 0 else LastTotal(h) }

  /** Past storing its count. */
  predicate Counted(w: Pc) { w.EndWrite? || w.ReleaseBump? || w.ReleaseCas? || w.ReleaseUnflag? }

  /** Past clearing the record at least once. */
  predicate Cleared(w: Pc) {
    || w.FinalBump? || w.FinalStore?
    || ((w.ReleaseBump? || w.ReleaseCas? || w.ReleaseUnflag?) && w.attempt > 0)
  }

  ghost predicate CountOk(m: Memory, w: Pc) {
    if m.owner.None? then m.mark <= |m.hist| && m.active == CountOf(m.hist[..m.mark])
    else
      && (Cleared(w) ==> m.active == 0)
      && (m.mark < |m.hist| && FirstPass(w) && !m.word.contended ==>
            match m.hist[m.mark].update
            case Apply(_, total) => (w.StoreActive? ==> w.total == total) && (Counted(w) ==> m.active == total)
            case Forget(_) => !w.StoreActive? && m.active == CountOf(m.hist[..m.mark]))
  }

  lemma CountOfTook(h: seq<Event>, u: Update)
    ensures CountOf(h + [Took(u, false)]) == match u case Apply(_, total) => total case Forget(_) => CountOf(h)
  {
    assert (h + [Took(u, false)])[..|h|] == h;
  }

  lemma SweepKeepsCount(m: Memory, t: Tid, w: Pc)
    requires Held(m, w) && Accounted(m, w) && m.owner.Some? && CountOk(m, w) && (w.Publish? || w.Scan?)
    ensures var l := Step(m, t, w); CountOk(l.mem, Keeps(l.pc))
  {
  }

  lemma ReleaseKeepsCount(m: Memory, t: Tid, w: Pc)
    requires Held(m, w) && Accounted(m, w) && Holding(w) && m.owner.Some? && CountOk(m, w) && !w.Publish? && !w.Scan?
    ensures var l := Step(m, t, w); CountOk(l.mem, Keeps(l.pc))
  {
    assert m.hist[..|m.hist|] == m.hist;
    if w.ReleaseCas? && m.word == Word(true, false) && FirstPass(w) {
      var u := m.hist[m.mark].update;
      CountOfTook(m.hist[..m.mark], u);
      assert m.hist == m.hist[..m.mark] + [Took(u, false)];
    }
  }

  lemma HolderKeepsCount(m: Memory, t: Tid, w: Pc)
    requires WriterInv(m, w) && Holding(w) && m.owner.Some? && CountOk(m, w)
    ensures var l := Step(m, t, w); CountOk(l.mem, Keeps(l.pc))
  {
    if w.Publish? || w.Scan? { SweepKeepsCount(m, t, w); } else { ReleaseKeepsCount(m, t, w); }
  }

  lemma AcquireKeepsCount(m: Memory, w: Pc, t: Tid, u: Update, k: nat)
    requires Held(m, w) && Accounted(m, w) && m.owner.None? && CountOk(m, w)
    ensures var l := AcquireStep(m, t, u, k); CountOk(l.mem, l.pc)
  {
    var l := AcquireStep(m, t, u, k);
    assert l.mem.hist[..|m.hist|] == m.hist && m.hist[..|m.hist|] == m.hist;
  }

  lemma TurningAwayKeepsCount(m: Memory, w: Pc, u: Update)
    requires Held(m, w) && Accounted(m, w) && CountOk(m, w)
    ensures CountOk(TurnAway(m, u), w)
  {
    assert m.mark <= |m.hist| ==> TurnAway(m, u).hist[..m.mark] == m.hist[..m.mark];
  }

  /** Asking, reading and bumping change neither the count nor what it goes with. */
  lemma LookingKeepsCount(m: Memory, w: Pc, t: Tid, pc: Pc)
    requires Held(m, w) && ThreadOk(m, pc) && !Holding(pc) && CountOk(m, w)
    requires !pc.Flag? && !pc.ForceFlag? && !(pc.Acquire? && m.owner.None?)
    ensures var l := Step(m, t, pc); CountOk(l.mem, HolderAfter(w, pc, l.pc))
  {
    var l := Step(m, t, pc);
    assert l.mem == m || l.mem == Bump(m);
    assert !Holding(l.pc);
  }

  lemma OthersKeepCount(m: Memory, w: Pc, t: Tid, pc: Pc)
    requires WriterInv(m, w) && ThreadOk(m, pc) && !Holding(pc) && CountOk(m, w)
    ensures var l := Step(m, t, pc); CountOk(l.mem, HolderAfter(w, pc, l.pc))
  {
    if pc.Acquire? && m.owner.None? { AcquireKeepsCount(m, w, t, pc.update, pc.attempt); }
    else if pc.Flag? { FlaggingKeepsCount(m, w, t, pc); }
    else if pc.ForceFlag? { TurningAwayKeepsCount(m, w, pc.update); }
    else { LookingKeepsCount(m, w, t, pc); }
  }

  lemma FlaggingKeepsCount(m: Memory, w: Pc, t: Tid, pc: Pc)
    requires Held(m, w) && Accounted(m, w) && pc.Flag? && CountOk(m, w)
    ensures var l := Step(m, t, pc); CountOk(l.mem, HolderAfter(w, pc, l.pc))
  {
    TurningAwayKeepsCount(m, w, pc.update);
  }

  lemma MoveKeepsCount(s: State, mv: Move)
    requires Inv(s) && Enabled(s, mv) && CountOk(s.mem, HolderPc(s))
    ensures CountOk(Do(s, mv).mem, HolderPc(Do(s, mv)))
  {
    var w, s' := HolderPc(s), Do(s, mv);
    match mv
    case Begin(t, call) => assert HolderPc(s') == w;
    case Run(t) =>
      var pc := s.threads[t];
      StepMovesOwner(s.mem, w, t, pc);
      assert HolderPc(s') == HolderAfter(w, pc, Step(s.mem, t, pc).pc);
      if Holding(pc) { HolderKeepsCount(s.mem, t, pc); } else { OthersKeepCount(s.mem, w, t, pc); }
  }

  /** With nobody holding the token the active count is the one that goes with the record. */
  lemma UnheldCountGoesWithTheRecord(states: seq<State>, moves: seq<Move>, i: nat)
    requires IsRun(states, moves) && i < |states| && !states[i].mem.word.writing
    ensures var m := states[i].mem; m.mark <= |m.hist| && m.active == CountOf(m.hist[..m.mark])
  {
    RunsKeepInv(states, moves, 0);
    for k := 0 to i
      invariant CountOk(states[k].mem, HolderPc(states[k]))
    {
      RunsKeepInv(states, moves, k);
      assert Follows(states, moves, k);
      MoveKeepsCount(states[k], moves[k]);
    }
    RunsKeepInv(states, moves, i);
  }
}
