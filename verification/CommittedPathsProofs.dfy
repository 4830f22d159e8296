/**
 What every run of the committed-mode record keeps: one writer at a time, a record that is exactly
 accounted for whenever the token word is free, reads that never mix two commits, and answers that
 stay exact for as long as their token does.
 */
module CommittedPathsProofs {
  import opened Prelude
  import opened CommittedPaths

  // ----- who holds the token -----

  predicate Holding(pc: Pc) {
    match pc
    case Publish(_, _, _, _) => true
    case Scan(_, _, _, _) => true
    case StoreActive(_) => true
    case EndWrite => true
    case ReleaseBump(_) => true
    case ReleaseCas(_) => true
    case ReleaseUnflag(_) => true
    case ReleaseStoreActive(_) => true
    case FinalBump => true
    case FinalStore => true
    case _ => false
  }

  // In the predicates below w is where the holder of the token stands, Idle when nobody holds it.

  ghost predicate Held(m: Memory, w: Pc) {
    && Shaped(m)
    && InBounds(w)
    && (m.word.writing <==> m.owner.Some?)
    && (m.owner.Some? ==> Holding(w))
    && (m.owner.None? ==> w == Idle)
  }

  // ----- the seqlock of each slot -----

  /** No write in progress: an even version and the payload last published under it. */
  ghost predicate Stable(slot: Slot, past: seq<Payload>) {
    |past| > 0 && slot.version == 2 * (|past| - 1) && slot.words == past[|past| - 1]
  }

  /** Mid-write: an odd version, with the words stored so far. */
  ghost predicate MidWrite(slot: Slot, past: seq<Payload>, p: Payload, stage: Stage, v: nat) {
    && |past| > 0
    && v == 2 * (|past| - 1)
    && slot.version == v + 1
    && (stage.StoreSize? || stage.StoreRefresh? || stage.StoreEven? ==> slot.words.monitor == p.monitor)
    && (stage.StoreRefresh? || stage.StoreEven? ==> slot.words.size == p.size)
    && (stage.StoreEven? ==> slot.words.refresh == p.refresh)
  }

  predicate Writing(w: Pc, i: nat) {
    w.Publish? && w.slot == i && !w.stage.LoadVersion? && !w.stage.StoreOdd?
  }

  ghost predicate SlotOk(m: Memory, w: Pc, i: nat)
    requires Shaped(m) && i < SLOTS
  {
    if Writing(w, i) then MidWrite(m.slots[i], m.published[i], JobPayload(w.job, i), w.stage, w.v)
    else Stable(m.slots[i], m.published[i])
  }

  ghost predicate SlotsOk(m: Memory, w: Pc)
    requires Shaped(m) && InBounds(w)
  {
    && (forall i :: 0 <= i < SLOTS ==> SlotOk(m, w, i))
    && (w.Publish? && w.stage.StoreOdd? ==> w.v == m.slots[w.slot].version)
  }

  // ----- what the holder has done so far -----

  /** The loads of a read agree with the slot as it is now. */
  ghost predicate Sees(slot: Slot, look: Look) {
    match look
    case LookVersion => true
    case LookMonitor(b) => b == slot.version
    case LookSize(b, mon) => b == slot.version && mon == slot.words.monitor
    case LookRefresh(b, mon, z) => b == slot.version && mon == slot.words.monitor && z == slot.words.size
    case LookAgain(b, mon, z, r) => b == slot.version && Payload(mon, z, r) == slot.words
  }

  /** Working on its own update, as opposed to clearing after a contended release. */
  predicate FirstPass(w: Pc) {
    match w
    case Publish(job, _, _, _) => !job.Clearing?
    case Scan(_, _, _, _) => true
    case StoreActive(_) => true
    case EndWrite => true
    case ReleaseBump(k) => k == 0
    case ReleaseCas(k) => k == 0
    case ReleaseUnflag(k) => k == 0
    case _ => false
  }

  /** Slots lo..hi of the record read c there. */
  ghost predicate Reads(m: Memory, lo: nat, hi: nat, c: Record)
    requires Shaped(m) && hi <= SLOTS == |c|
  {
    forall j :: lo <= j < hi ==> m.slots[j].words == c[j]
  }

  ghost predicate Progress(m: Memory, w: Pc, u: Update)
    requires Shaped(m) && InBounds(w)
  {
    match w
    case Publish(Applying(p, n), i, _, _) => u == Apply(p, n) && Reads(m, 0, i, Wrote(u, m.base))
    case Publish(Forgetting(mon), i, _, _) =>
      && u == Forget(mon) && mon != 0 && m.base[i].monitor == mon
      && Reads(m, 0, i, Wrote(u, m.base)) && Reads(m, i + 1, SLOTS, m.base)
    case Publish(Clearing(_), i, _, _) => Reads(m, 0, i, Nothing())
    case Scan(mon, i, tries, look) =>
      && u == Forget(mon) && mon != 0 && tries == 0 && Sees(m.slots[i], look)
      && Reads(m, 0, i, Wrote(u, m.base)) && Reads(m, i, SLOTS, m.base)
    case StoreActive(_) => Reads(m, 0, SLOTS, Wrote(u, m.base))
    case EndWrite => Reads(m, 0, SLOTS, Wrote(u, m.base))
    case ReleaseBump(k) => Reads(m, 0, SLOTS, if k == 0 then Wrote(u, m.base) else Nothing())
    case ReleaseCas(k) => Reads(m, 0, SLOTS, if k == 0 then Wrote(u, m.base) else Nothing())
    case ReleaseUnflag(k) => m.word.contended
    case ReleaseStoreActive(_) => Reads(m, 0, SLOTS, Nothing())
    case FinalBump => Reads(m, 0, SLOTS, Nothing())
    case FinalStore => Reads(m, 0, SLOTS, Nothing())
    case _ => true
  }

  // ----- the account -----

  ghost predicate AllMissed(h: seq<Event>, from: nat) {
    forall j :: from <= j < |h| ==> h[j].Missed?
  }

  ghost predicate FreeAccount(m: Memory)
    requires Shaped(m)
  {
    && m.mark <= |m.hist|
    && AllMissed(m.hist, m.mark)
    && (m.word.contended <==> m.mark < |m.hist|)
    && Reads(m, 0, SLOTS, Outcome(m.hist[..m.mark]))
  }

  ghost predicate HeldAccount(m: Memory, w: Pc)
    requires Shaped(m) && InBounds(w)
  {
    && m.mark < |m.hist|
    && m.hist[m.mark].Took?
    && AllMissed(m.hist, m.mark + 1)
    && (m.word.contended || !FirstPass(w) ==> Replay(m.hist).spoiled)
    && (!m.word.contended && FirstPass(w) ==>
          m.mark + 1 == |m.hist| && !m.hist[m.mark].flagged && m.base == Outcome(m.hist[..m.mark]))
    && Progress(m, w, m.hist[m.mark].update)
  }

  ghost predicate Accounted(m: Memory, w: Pc)
    requires Shaped(m) && InBounds(w)
  {
    if m.owner.None? then FreeAccount(m) else HeldAccount(m, w)
  }

  // ----- generations -----

  /** Right after its own bump a holder has changed nothing since. */
  predicate JustBumped(w: Pc) { w.ReleaseCas? || w.ReleaseUnflag? || w.FinalStore? }

  ghost predicate GenerationOk(m: Memory, w: Pc)
    requires Shaped(m)
  {
    && (forall i :: 0 <= i < SLOTS ==> m.clean[i] <= m.slots[i].version)
    && (m.owner.None? || JustBumped(w) ==> Versions(m.slots) == m.clean)
  }

  // ----- where published payloads come from -----

  /** p is empty or what some commit that held the token puts in slot i. */
  ghost predicate FromCommit(h: seq<Event>, i: nat, p: Payload) {
    p == EMPTY || exists j :: 0 <= j < |h| && h[j].Took? && h[j].update.Apply? &&
                              PathPayload(h[j].update.paths, i) == p
  }

  ghost predicate Sourced(m: Memory)
    requires Shaped(m)
  {
    forall i, k :: 0 <= i < SLOTS && 0 <= k < |m.published[i]| ==>
      FromCommit(m.hist, i, m.published[i][k])
  }

  ghost predicate WriterInv(m: Memory, w: Pc) {
    Held(m, w) && SlotsOk(m, w) && Accounted(m, w) && GenerationOk(m, w) && Sourced(m)
  }

  // ----- preservation by the holder's own steps -----

  /** What the holder's pc becomes in the invariant: Idle once it has let go. */
  function Keeps(pc: Pc): Pc { if Holding(pc) then pc else Idle }

  lemma PublishKeepsSlots(m: Memory, t: Tid, w: Pc)
    requires Held(m, w) && SlotsOk(m, w) && w.Publish?
    ensures var l := Step(m, t, w); SlotsOk(l.mem, Keeps(l.pc))
  {
    var l := Step(m, t, w);
    var i := w.slot;
    assert SlotOk(m, w, i);
    forall j | 0 <= j < SLOTS ensures SlotOk(l.mem, Keeps(l.pc), j) {
      assert SlotOk(m, w, j);
    }
  }

  /** What the holder's current sweep puts in every slot. */
  ghost function Sweep(m: Memory, job: Job, u: Update): (c: Record)
    requires Shaped(m)
    ensures |c| == SLOTS
  {
    if job.Clearing? then Nothing() else Wrote(u, m.base)
  }

  lemma PublishMidKeepsAccount(m: Memory, t: Tid, w: Pc)
    requires Held(m, w) && SlotsOk(m, w) && Accounted(m, w) && w.Publish? && !w.stage.StoreEven?
    ensures var l := Step(m, t, w); Accounted(l.mem, Keeps(l.pc))
  {
    var l := Step(m, t, w);
    assert forall j :: 0 <= j < SLOTS && j != w.slot ==> l.mem.slots[j] == m.slots[j];
    assert FirstPass(l.pc) == FirstPass(w);
  }

  lemma PublishEndKeepsAccount(m: Memory, t: Tid, w: Pc)
    requires Held(m, w) && SlotsOk(m, w) && Accounted(m, w) && w.Publish? && w.stage.StoreEven?
    ensures var l := Step(m, t, w); Accounted(l.mem, Keeps(l.pc))
  {
    var l := Step(m, t, w);
    var i, u := w.slot, m.hist[m.mark].update;
    var c := Sweep(m, w.job, u);
    assert SlotOk(m, w, i);
    assert Reads(m, 0, i, c);
    assert l.mem.slots[i].words == JobPayload(w.job, i) == c[i];
    assert Reads(l.mem, 0, i + 1, c);
    assert w.job.Forgetting? ==> Reads(l.mem, i + 1, SLOTS, m.base);
    assert FirstPass(l.pc) == FirstPass(w);
    assert Progress(l.mem, l.pc, u);
  }

  lemma PublishKeepsAccount(m: Memory, t: Tid, w: Pc)
    requires Held(m, w) && SlotsOk(m, w) && Accounted(m, w) && w.Publish?
    ensures var l := Step(m, t, w); Accounted(l.mem, Keeps(l.pc))
  {
    if w.stage.StoreEven? { PublishEndKeepsAccount(m, t, w); } else { PublishMidKeepsAccount(m, t, w); }
  }

  lemma PublishKeepsGeneration(m: Memory, t: Tid, w: Pc)
    requires Held(m, w) && SlotsOk(m, w) && GenerationOk(m, w) && w.Publish?
    ensures var l := Step(m, t, w); GenerationOk(l.mem, Keeps(l.pc))
  {
    assert SlotOk(m, w, w.slot);
  }

  lemma PublishKeepsSourced(m: Memory, t: Tid, w: Pc)
    requires Held(m, w) && Accounted(m, w) && Sourced(m) && w.Publish?
    ensures Sourced(Step(m, t, w).mem)
  {
    assert FromCommit(m.hist, w.slot, JobPayload(w.job, w.slot));
  }

  lemma PublishKeepsHeld(m: Memory, t: Tid, w: Pc)
    requires Held(m, w) && SlotsOk(m, w) && w.Publish?
    ensures var l := Step(m, t, w); Held(l.mem, Keeps(l.pc))
  {
    assert SlotOk(m, w, w.slot);
  }

  lemma PublishKeeps(m: Memory, t: Tid, w: Pc)
    requires WriterInv(m, w) && w.Publish?
    ensures var l := Step(m, t, w); WriterInv(l.mem, Keeps(l.pc))
  {
    var l := Step(m, t, w);
    assert Held(l.mem, Keeps(l.pc)) by { PublishKeepsHeld(m, t, w); }
    assert SlotsOk(l.mem, Keeps(l.pc)) by { PublishKeepsSlots(m, t, w); }
    assert Accounted(l.mem, Keeps(l.pc)) by { PublishKeepsAccount(m, t, w); }
    assert GenerationOk(l.mem, Keeps(l.pc)) by { PublishKeepsGeneration(m, t, w); }
    assert Sourced(l.mem) by { PublishKeepsSourced(m, t, w); }
  }

  lemma ScanKeeps(m: Memory, t: Tid, w: Pc)
    requires WriterInv(m, w) && w.Scan?
    ensures var l := Step(m, t, w); WriterInv(l.mem, Keeps(l.pc))
  {
    var l := Step(m, t, w);
    var i, u := w.slot, m.hist[m.mark].update;
    forall j | 0 <= j < SLOTS ensures SlotOk(m, Keeps(l.pc), j) {
      assert SlotOk(m, w, j);
    }
    assert SlotOk(m, w, i);
    if !Observe(m.slots[i], w.look).More? {
      assert m.slots[i].words == m.base[i];
      assert Wrote(u, m.base)[i] == if m.base[i].monitor == w.monitor then EMPTY else m.base[i];
    }
  }

  /** An update that takes an unflagged token does to the outcome exactly what it writes. */
  lemma OutcomeOfTook(h: seq<Event>, u: Update)
    ensures Outcome(h + [Took(u, false)]) == Wrote(u, Outcome(h))
  {
    assert (h + [Took(u, false)])[..|h|] == h;
  }

  lemma ReleaseKeepsSlots(m: Memory, t: Tid, w: Pc)
    requires Held(m, w) && SlotsOk(m, w) && Holding(w) && !w.Publish? && !w.Scan?
    ensures var l := Step(m, t, w); SlotsOk(l.mem, Keeps(l.pc))
  {
    var l := Step(m, t, w);
    forall j | 0 <= j < SLOTS ensures SlotOk(l.mem, Keeps(l.pc), j) {
      assert SlotOk(m, w, j);
    }
  }

  lemma ReleaseKeepsAccount(m: Memory, t: Tid, w: Pc)
    requires Held(m, w) && Accounted(m, w) && Holding(w) && !w.Publish? && !w.Scan?
    ensures var l := Step(m, t, w); Accounted(l.mem, Keeps(l.pc))
  {
    var l := Step(m, t, w);
    assert m.hist[..|m.hist|] == m.hist;
    if w.ReleaseCas? && !m.word.contended && FirstPass(w) {
      var u := m.hist[m.mark].update;
      OutcomeOfTook(m.hist[..m.mark], u);
      assert m.hist == m.hist[..m.mark] + [Took(u, false)];
    }
  }

  lemma ReleaseKeeps(m: Memory, t: Tid, w: Pc)
    requires WriterInv(m, w) && Holding(w) && !w.Publish? && !w.Scan?
    ensures var l := Step(m, t, w); WriterInv(l.mem, Keeps(l.pc))
  {
    ReleaseKeepsSlots(m, t, w);
    ReleaseKeepsAccount(m, t, w);
  }

  // ----- preservation by everybody else's steps -----

  predicate Proper(u: Update) { u.Forget? ==> u.monitor != 0 }

  lemma AcquireKeeps(m: Memory, t: Tid, w: Pc, u: Update, k: nat)
    requires WriterInv(m, w) && Proper(u) && m.owner.None?
    ensures var l := AcquireStep(m, t, u, k); WriterInv(l.mem, l.pc)
  {
    var l := AcquireStep(m, t, u, k);
    forall j | 0 <= j < SLOTS ensures SlotOk(l.mem, l.pc, j) {
      assert SlotOk(m, w, j);
    }
    assert l.mem.hist[..|m.hist|] == m.hist;
    assert m.hist[..|m.hist|] == m.hist;
    forall i, k | 0 <= i < SLOTS && 0 <= k < |m.published[i]|
      ensures FromCommit(l.mem.hist, i, m.published[i][k])
    {
      MoreHistory(m.hist, l.mem.hist, i, m.published[i][k]);
    }
  }

  lemma MoreHistory(h: seq<Event>, h': seq<Event>, i: nat, p: Payload)
    requires h <= h' && FromCommit(h, i, p)
    ensures FromCommit(h', i, p)
  {
    if p != EMPTY {
      var j :| 0 <= j < |h| && h[j].Took? && h[j].update.Apply? && PathPayload(h[j].update.paths, i) == p;
      assert h'[j] == h[j];
    }
  }

  /** Turning an update away: the flag goes up and the update is on record as missed. */
  function TurnAway(m: Memory, u: Update): Memory {
    m.(word := m.word.(contended := true), hist := m.hist + [Missed(u)])
  }

  lemma TurnAwayKeeps(m: Memory, w: Pc, u: Update)
    requires WriterInv(m, w)
    ensures WriterInv(TurnAway(m, u), w)
  {
    var m' := TurnAway(m, u);
    forall j | 0 <= j < SLOTS ensures SlotOk(m', w, j) {
      assert SlotOk(m, w, j);
    }
    assert m'.hist[..|m.hist|] == m.hist;
    assert m.owner.None? ==> m'.hist[..m.mark] == m.hist[..m.mark];
    forall i, k | 0 <= i < SLOTS && 0 <= k < |m.published[i]|
      ensures FromCommit(m'.hist, i, m.published[i][k])
    {
      MoreHistory(m.hist, m'.hist, i, m.published[i][k]);
    }
  }

  lemma BumpKeeps(m: Memory, w: Pc)
    requires WriterInv(m, w)
    ensures WriterInv(Bump(m), w)
  {
    forall j | 0 <= j < SLOTS ensures SlotOk(Bump(m), w, j) {
      assert SlotOk(m, w, j);
    }
  }

  // ----- how memory evolves -----

  /** Counters and histories only grow, and a slot whose even version stands has not changed. */
  ghost predicate Evolves(m: Memory, m': Memory) {
    && Shaped(m) && Shaped(m')
    && m.generation <= m'.generation
    && (m.generation == m'.generation ==> m.clean == m'.clean)
    && m.hist <= m'.hist
    && (forall i :: 0 <= i < SLOTS ==>
          && m.slots[i].version <= m'.slots[i].version
          && m.published[i] <= m'.published[i]
          && (m.slots[i].version == m'.slots[i].version && m.slots[i].version % 2 == 0 ==>
                m.slots[i] == m'.slots[i]))
  }

  lemma EvolvesFurther(a: Memory, b: Memory, c: Memory)
    requires Evolves(a, b) && Evolves(b, c)
    ensures Evolves(a, c)
  {
  }

  lemma StepEvolves(m: Memory, w: Pc, t: Tid, pc: Pc)
    requires WriterInv(m, w) && InBounds(pc)
    requires Holding(pc) ==> pc == w
    ensures Evolves(m, Step(m, t, pc).mem)
  {
    if pc.Publish? { PublishEvolves(m, t, pc); }
  }

  lemma PublishEvolves(m: Memory, t: Tid, w: Pc)
    requires Held(m, w) && SlotsOk(m, w) && w.Publish?
    ensures Evolves(m, Step(m, t, w).mem)
  {
    assert SlotOk(m, w, w.slot);
  }

  // ----- readers -----

  /** Token g is current: nothing has been published since the generation it names began. */
  ghost predicate Current(m: Memory, g: nat)
    requires Shaped(m)
  {
    g == m.generation && Versions(m.slots) == m.clean && forall i :: 0 <= i < SLOTS ==> m.slots[i].version % 2 == 0
  }

  lemma CurrentWasCurrent(m: Memory, m': Memory, g: nat)
    requires Evolves(m, m') && g <= m.generation && Current(m', g)
    requires forall i :: 0 <= i < SLOTS ==> m.clean[i] <= m.slots[i].version
    ensures Current(m, g) && m.slots == m'.slots
  {
    forall i | 0 <= i < SLOTS ensures m.slots[i] == m'.slots[i] {
      assert Versions(m'.slots)[i] == m.clean[i];
    }
    assert Versions(m.slots) == m.clean;
  }

  /** The mode the record holds for a monitor: that of the first slot naming it. */
  function Lookup(c: Record, mon: nat): Option<CommittedMode> {
    if c == [] then None
    else if c[0].monitor == mon then Some(UnpackMode(c[0]))
    else Lookup(c[1..], mon)
  }

  lemma {:induction false} LookupSkips(c: Record, mon: nat, i: nat)
    requires i <= |c| && forall j :: 0 <= j < i ==> c[j].monitor != mon
    ensures Lookup(c, mon) == Lookup(c[i..], mon)
  {
    if i == 0 {
      assert c[0..] == c;
    } else {
      LookupSkips(c[1..], mon, i - 1);
      assert c[1..][i - 1..] == c[i..];
    }
  }

  ghost predicate LookOk(slot: Slot, look: Look, least: nat) {
    !look.LookVersion? ==>
      && least <= look.before <= slot.version
      && look.before % 2 == 0
      && (look.before == slot.version ==> Sees(slot, look))
  }

  ghost predicate GetOk(m: Memory, mon: nat, token: Option<nat>, from: seq<nat>,
                        i: nat, tries: nat, look: Look)
    requires Shaped(m)
  {
    && mon != 0 && i < SLOTS && |from| == SLOTS
    && (forall j :: 0 <= j < SLOTS ==> from[j] <= m.slots[j].version)
    && LookOk(m.slots[i], look, from[i])
    && (token.Some? ==>
          && token.value <= m.generation
          && (token.value == m.generation ==> LookOk(m.slots[i], look, m.clean[i]))
          && (Current(m, token.value) ==>
                tries == 0 && forall j :: 0 <= j < i ==> m.slots[j].words.monitor != mon))
  }

  ghost predicate AnswerOk(m: Memory, mon: nat, token: Option<nat>, from: seq<nat>,
                           answer: Option<CommittedMode>, i: nat, nth: nat)
    requires Shaped(m)
  {
    && mon != 0 && |from| == SLOTS
    && (answer.Some? ==>
          && i < SLOTS && nth < |m.published[i]|
          && from[i] <= 2 * nth
          && m.published[i][nth].monitor == mon
          && UnpackMode(m.published[i][nth]) == answer.value)
    && (token.Some? ==>
          && token.value <= m.generation
          && (Current(m, token.value) ==> answer == Lookup(Contents(m.slots), mon)))
  }

  ghost predicate ThreadOk(m: Memory, pc: Pc)
    requires Shaped(m)
  {
    && InBounds(pc)
    && match pc
       case Acquire(u, _) => Proper(u)
       case Flag(u, _) => Proper(u)
       case ForceFlag(u) => Proper(u)
       case TokenLoad(mon) => mon != 0
       case Get(mon, token, from, i, tries, look) => GetOk(m, mon, token, from, i, tries, look)
       case Answered(mon, token, from, answer, i, nth) => AnswerOk(m, mon, token, from, answer, i, nth)
       case _ => true
  }

  /** A thread that stands still stays right while memory evolves under it. */
  lemma StandingStillIsOk(m: Memory, w: Pc, m': Memory, pc: Pc)
    requires WriterInv(m, w) && Evolves(m, m') && ThreadOk(m, pc)
    ensures ThreadOk(m', pc)
  {
    if (pc.Get? || pc.Answered?) && pc.token.Some? && Current(m', pc.token.value) {
      CurrentWasCurrent(m, m', pc.token.value);
    }
  }

  lemma GetGoesOn(m: Memory, w: Pc, pc: Pc)
    requires WriterInv(m, w) && ThreadOk(m, pc) && pc.Get? && Observe(m.slots[pc.slot], pc.look).More?
    ensures ThreadOk(m, Step(m, 0, pc).pc)
  {
    assert SlotOk(m, w, pc.slot);
  }

  /** A read that has to try again has seen a write since its token. */
  lemma GetTriesAgain(m: Memory, w: Pc, pc: Pc)
    requires WriterInv(m, w) && ThreadOk(m, pc) && pc.Get? && Observe(m.slots[pc.slot], pc.look).Again?
    ensures ThreadOk(m, Step(m, 0, pc).pc)
  {
    assert pc.token.Some? ==> !Current(m, pc.token.value);
  }

  lemma GetPassesOver(m: Memory, mon: nat, i: nat)
    requires Shaped(m) && i < SLOTS && forall j :: 0 <= j <= i ==> m.slots[j].words.monitor != mon
    ensures i + 1 == SLOTS ==> Lookup(Contents(m.slots), mon) == None
  {
    if i + 1 == SLOTS { LookupSkips(Contents(m.slots), mon, SLOTS); }
  }

  lemma GetHits(m: Memory, mon: nat, i: nat)
    requires Shaped(m) && i < SLOTS && forall j :: 0 <= j < i ==> m.slots[j].words.monitor != mon
    requires m.slots[i].words.monitor == mon
    ensures Lookup(Contents(m.slots), mon) == Some(UnpackMode(m.slots[i].words))
  {
    LookupSkips(Contents(m.slots), mon, i);
  }

  lemma GetFinds(m: Memory, w: Pc, pc: Pc)
    requires WriterInv(m, w) && ThreadOk(m, pc) && pc.Get? && Observe(m.slots[pc.slot], pc.look).Found?
    ensures ThreadOk(m, Step(m, 0, pc).pc)
  {
    var i := pc.slot;
    assert SlotOk(m, w, i);
    var p := m.slots[i].words;
    assert Observe(m.slots[i], pc.look) == Found(p, m.slots[i].version);
    assert m.published[i][m.slots[i].version / 2] == p;
    if pc.token.Some? && Current(m, pc.token.value) {
      if p.monitor == pc.monitor { GetHits(m, pc.monitor, i); } else { GetPassesOver(m, pc.monitor, i); }
    }
  }

  lemma GetStepOk(m: Memory, w: Pc, t: Tid, pc: Pc)
    requires WriterInv(m, w) && ThreadOk(m, pc) && pc.Get?
    ensures ThreadOk(m, Step(m, t, pc).pc)
  {
    match Observe(m.slots[pc.slot], pc.look)
    case More(_) => GetGoesOn(m, w, pc);
    case Again => GetTriesAgain(m, w, pc);
    case Found(_, _) => GetFinds(m, w, pc);
  }

  // ----- the invariant of the whole machine -----

  ghost function HolderPc(s: State): Pc {
    if s.mem.owner.Some? && s.mem.owner.value in s.threads then s.threads[s.mem.owner.value] else Idle
  }

  ghost predicate Inv(s: State) {
    && WriterInv(s.mem, HolderPc(s))
    && (s.mem.owner.Some? ==> s.mem.owner.value in s.threads)
    && (forall t :: t in s.threads ==>
          ThreadOk(s.mem, s.threads[t]) && (Holding(s.threads[t]) <==> s.mem.owner == Some(t)))
  }

  /** Where the holder stands after thread t, standing at pc, has taken a step. */
  function HolderAfter(w: Pc, pc: Pc, pc': Pc): Pc {
    if Holding(pc) then Keeps(pc') else if Holding(pc') then pc' else w
  }

  lemma HolderStepKeeps(m: Memory, t: Tid, w: Pc)
    requires WriterInv(m, w) && Holding(w)
    ensures var l := Step(m, t, w); WriterInv(l.mem, Keeps(l.pc))
  {
    if w.Publish? { PublishKeeps(m, t, w); }
    else if w.Scan? { ScanKeeps(m, t, w); }
    else { ReleaseKeeps(m, t, w); }
  }

  lemma OtherStepKeeps(m: Memory, w: Pc, t: Tid, pc: Pc)
    requires WriterInv(m, w) && ThreadOk(m, pc) && !Holding(pc)
    ensures var l := Step(m, t, pc); WriterInv(l.mem, HolderAfter(w, pc, l.pc))
  {
    match pc
    case Acquire(u, k) => if m.owner.None? { AcquireKeeps(m, t, w, u, k); }
    case Flag(u, k) => TurnAwayKeeps(m, w, u);
    case ForceFlag(u) => TurnAwayKeeps(m, w, u);
    case BumpTurnedAway => BumpKeeps(m, w);
    case _ =>
  }

  /** Only an acquire makes a thread the owner, only its own release makes it let go. */
  lemma StepMovesOwner(m: Memory, w: Pc, t: Tid, pc: Pc)
    requires Held(m, w) && InBounds(pc)
    requires Holding(pc) <==> m.owner == Some(t)
    ensures var l := Step(m, t, pc);
            && (Holding(l.pc) <==> l.mem.owner == Some(t))
            && (Holding(pc) || Holding(l.pc) || l.mem.owner == m.owner)
            && (l.mem.owner != m.owner ==>
                  (m.owner == None && l.mem.owner == Some(t)) || (m.owner == Some(t) && l.mem.owner == None))
  {
  }

  lemma StepKeepsMemory(m: Memory, w: Pc, t: Tid, pc: Pc)
    requires WriterInv(m, w) && ThreadOk(m, pc)
    requires Holding(pc) <==> m.owner == Some(t)
    requires Holding(pc) ==> pc == w
    ensures var l := Step(m, t, pc);
            WriterInv(l.mem, HolderAfter(w, pc, l.pc)) && Evolves(m, l.mem)
  {
    StepEvolves(m, w, t, pc);
    if Holding(pc) { HolderStepKeeps(m, t, pc); } else { OtherStepKeeps(m, w, t, pc); }
  }

  lemma StepKeepsThread(m: Memory, w: Pc, t: Tid, pc: Pc)
    requires WriterInv(m, w) && ThreadOk(m, pc) && Evolves(m, Step(m, t, pc).mem)
    ensures ThreadOk(Step(m, t, pc).mem, Step(m, t, pc).pc)
  {
    if pc.Get? { GetStepOk(m, w, t, pc); }
    if pc.Answered? { StandingStillIsOk(m, w, Step(m, t, pc).mem, pc); }
  }

  lemma RunKeepsInv(s: State, t: Tid)
    requires Inv(s) && Enabled(s, Run(t))
    ensures Inv(Do(s, Run(t))) && Evolves(s.mem, Do(s, Run(t)).mem)
  {
    var w, pc, s' := HolderPc(s), s.threads[t], Do(s, Run(t));
    var l := Step(s.mem, t, pc);
    StepKeepsMemory(s.mem, w, t, pc);
    StepMovesOwner(s.mem, w, t, pc);
    StepKeepsThread(s.mem, w, t, pc);
    assert HolderPc(s') == HolderAfter(w, pc, l.pc);
    forall u | u in s'.threads
      ensures ThreadOk(s'.mem, s'.threads[u]) && (Holding(s'.threads[u]) <==> s'.mem.owner == Some(u))
    {
      if u != t { StandingStillIsOk(s.mem, w, s'.mem, s.threads[u]); }
    }
  }

  lemma BeginKeepsInv(s: State, t: Tid, call: Call)
    requires Inv(s) && Enabled(s, Begin(t, call))
    ensures Inv(Do(s, Begin(t, call))) && Evolves(s.mem, Do(s, Begin(t, call)).mem)
  {
    assert HolderPc(Do(s, Begin(t, call))) == HolderPc(s);
  }

  lemma InitInv(s: State)
    requires Init(s)
    ensures Inv(s)
  {
    var m := s.mem;
    assert Outcome([]) == Nothing();
    assert forall i :: 0 <= i < SLOTS ==> SlotOk(m, Idle, i);
    assert Versions(m.slots) == m.clean;
  }

  lemma MoveKeepsInv(s: State, mv: Move)
    requires Inv(s) && Enabled(s, mv)
    ensures Inv(Do(s, mv)) && Evolves(s.mem, Do(s, mv).mem)
  {
    match mv
    case Begin(t, call) => BeginKeepsInv(s, t, call);
    case Run(t) => RunKeepsInv(s, t);
  }

  /** Every state of every run satisfies the invariant. */
  lemma {:induction false} RunsKeepInv(states: seq<State>, moves: seq<Move>, i: nat)
    requires IsRun(states, moves) && i < |states|
    ensures Inv(states[i])
  {
    if i == 0 {
      InitInv(states[0]);
    } else {
      RunsKeepInv(states, moves, i - 1);
      assert Follows(states, moves, i - 1);
      MoveKeepsInv(states[i - 1], moves[i - 1]);
    }
  }

  lemma RunsEvolveOnce(states: seq<State>, moves: seq<Move>, i: nat)
    requires IsRun(states, moves) && i < |moves|
    ensures Evolves(states[i].mem, states[i + 1].mem)
  {
    RunsKeepInv(states, moves, i);
    assert Follows(states, moves, i);
    MoveKeepsInv(states[i], moves[i]);
  }

  /** Memory only evolves along a run. */
  lemma {:induction false} RunsEvolve(states: seq<State>, moves: seq<Move>, i: nat, j: nat)
    requires IsRun(states, moves) && i <= j < |states|
    ensures Evolves(states[i].mem, states[j].mem)
    decreases j - i
  {
    if i == j {
      RunsKeepInv(states, moves, i);
    } else {
      RunsEvolve(states, moves, i, j - 1);
      RunsEvolveOnce(states, moves, j - 1);
      EvolvesFurther(states[i].mem, states[j - 1].mem, states[j].mem);
    }
  }
}
