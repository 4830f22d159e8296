/** What a claim is worth, and what becomes of every frame offered: invariants beside the slots'. */
module RingClaimProofs {
  import opened Prelude
  import opened Counting
  import opened Ring
  import opened RingProtocol
  import opened RingProtocolProofs

  // ----- the generation a claim was made under -----

  /** A rebuild has bumped the policy's generation and not yet the header's. */
  predicate Rebuilding(w: Writer) { (w.Reset? && !w.disabling) || w.SetGeneration? }

  predicate GenerationOk(st: State) {
    st.policy.generation == st.generation + One(Rebuilding(st.writer))
  }

  /** Sequence, timestamp and fence are those of one publish, no older than the one scanned. */
  ghost predicate OfOnePublish(log: seq<Frame>, c: Claim) {
    && 1 <= c.sequence <= |log| && Frame(c.presentQpc, c.fence) == log[c.sequence - 1]
    && c.scanned <= c.sequence
  }

  /** What has been read of the slot is what it still shows. */
  ghost predicate ReadSoFar(m: Meta, r: Reader)
    requires HoldsClaim(r)
  {
    && r.c.scanned <= m.sequence
    && (!r.ReadSequence? ==> r.c.sequence == m.sequence)
    && (!r.ReadSequence? && !r.ReadQpc? ==> r.c.presentQpc == m.presentQpc)
    && (r.ReadGeneration? || r.Holding? ==> r.c.fence == m.fence)
  }

  /** Nobody can be writing into a claimed slot: it is READING, or the slots are being reset, or the
      transport is off for good. */
  predicate Safe(st: State, m: Meta) { m.state == READING || Resetting(st.writer) || st.disabled }

  /** While the header's generation is the one of the compare-exchange, the slot shows the frame claimed. */
  ghost predicate ClaimIntact(st: State)
    requires Sized(st)
  {
    HoldsClaim(st.reader) ==>
      var c := st.reader.c;
      && c.tookAt <= st.generation
      && (!st.reader.Holding? && c.tookAt == st.generation ==>
            var m := st.slots[c.index];
            Safe(st, m) && Shows(st.log, m) && ReadSoFar(m, st.reader))
      && (st.reader.Holding? ==>
            c.tookAt <= c.generation <= st.generation
            && (c.tookAt == c.generation ==> OfOnePublish(st.log, c)))
  }

  // ----- every frame offered -----

  predicate Undecided(w: Writer) { w.Reconcile? || w.Take? || w.Copy? }

  predicate OfferedOk(st: State) {
    st.offered == |st.log| + st.refused + st.aborted + st.lost + st.exited + One(Undecided(st.writer))
  }

  ghost predicate FullInv(st: State) { Inv(st) && GenerationOk(st) && ClaimIntact(st) && OfferedOk(st) }

  // ----- step by step -----

  lemma WriterKeepsGeneration(st: State, outcome: Outcome)
    requires Sized(st) && GenerationOk(st) && Enabled(st, WriterStep(outcome))
    ensures GenerationOk(WriterNext(st, outcome)) && WriterNext(st, outcome).generation >= st.generation
  {
    if !Resetting(st.writer) { OnlyResetsBump(st, outcome); }
  }

  lemma OnlyResetsBump(st: State, outcome: Outcome)
    requires Sized(st) && Enabled(st, WriterStep(outcome)) && !Resetting(st.writer)
    ensures var st' := WriterNext(st, outcome);
            && st'.generation == st.generation && st'.policy.generation == st.policy.generation
            && !Resetting(st'.writer)
  {
  }

  /** A frame is decided about while the writer reconciles, takes and copies, and never later. */
  lemma DecidingKeepsOffered(st: State, outcome: Outcome)
    requires Sized(st) && OfferedOk(st) && Enabled(st, WriterStep(outcome)) && Undecided(st.writer)
    ensures OfferedOk(WriterNext(st, outcome))
  {
  }

  lemma WriterKeepsOffered(st: State, outcome: Outcome)
    requires Sized(st) && OfferedOk(st) && Enabled(st, WriterStep(outcome))
    ensures OfferedOk(WriterNext(st, outcome))
  {
    if Undecided(st.writer) { DecidingKeepsOffered(st, outcome); } else { DecidedStaysDecided(st, outcome); }
  }

  lemma DecidedStaysDecided(st: State, outcome: Outcome)
    requires Sized(st) && OfferedOk(st) && Enabled(st, WriterStep(outcome)) && !Undecided(st.writer)
    ensures OfferedOk(WriterNext(st, outcome))
  {
  }

  lemma WriterMovesOnly(st: State, outcome: Outcome)
    requires Sized(st) && Enabled(st, WriterStep(outcome))
    ensures WriterNext(st, outcome).reader == st.reader && st.log <= WriterNext(st, outcome).log
  {
  }

  /** A claim stays intact when the slot keeps its words and the log only grows. */
  lemma StaysIntact(st: State, st': State)
    requires Sized(st) && Sized(st') && ClaimIntact(st) && HoldsClaim(st.reader)
    requires st'.reader == st.reader && st.log <= st'.log && st.generation <= st'.generation
    requires |st'.slots| == |st.slots|
    requires var i := st.reader.c.index;
             Safe(st, st.slots[i]) ==>
               && st'.slots[i] == st.slots[i].(state := st'.slots[i].state)
               && (st'.generation == st.generation ==> Safe(st', st'.slots[i]))
    ensures ClaimIntact(st')
  {
  }

  /** What a writer's step does to the claimed slot: nothing, or a reset. */
  lemma WriterSparesTheClaim(st: State, outcome: Outcome, i: nat)
    requires Inv(st) && GenerationOk(st) && Enabled(st, WriterStep(outcome))
    requires i < |st.slots| && Safe(st, st.slots[i])
    ensures var st' := WriterNext(st, outcome);
            && |st'.slots| == |st.slots|
            && st'.slots[i] == st.slots[i].(state := st'.slots[i].state)
            && (st'.generation == st.generation ==> Safe(st', st'.slots[i]))
  {
    assert SlotAt(st, i);
  }

  lemma WriterKeepsClaim(st: State, outcome: Outcome)
    requires FullInv(st) && Enabled(st, WriterStep(outcome)) && Sized(WriterNext(st, outcome))
    ensures ClaimIntact(WriterNext(st, outcome))
  {
    var st' := WriterNext(st, outcome);
    WriterMovesOnly(st, outcome);
    WriterKeepsGeneration(st, outcome);
    if HoldsClaim(st.reader) {
      if Safe(st, st.slots[st.reader.c.index]) { WriterSparesTheClaim(st, outcome, st.reader.c.index); }
      StaysIntact(st, st');
    }
  }

  lemma ClaimStartsIntact(st: State)
    requires Sized(st) && st.reader.TryClaim? && BestOk(st.slots, st.reader.candidate)
    requires SlotAt(st, st.reader.candidate.index) && Sized(ReaderNext(st))
    ensures ClaimIntact(ReaderNext(st))
  {
  }

  lemma ReaderKeepsCounts(st: State)
    requires Sized(st) && GenerationOk(st) && OfferedOk(st) && Enabled(st, ReaderStep)
    ensures GenerationOk(ReaderNext(st)) && OfferedOk(ReaderNext(st)) && ReaderNext(st).generation == st.generation
  {
    if !st.reader.TryClaim? { LookingMovesOnly(st); }
  }

  lemma ReadingKeepsClaim(st: State)
    requires Sized(st) && ClaimIntact(st) && Enabled(st, ReaderStep) && HoldsClaim(st.reader)
    requires Sized(ReaderNext(st))
    ensures ClaimIntact(ReaderNext(st))
  {
    LookingMovesOnly(st);
  }

  lemma LookingClaimsNothing(st: State)
    requires Sized(st) && Enabled(st, ReaderStep) && !HoldsClaim(st.reader) && !st.reader.TryClaim?
    ensures !HoldsClaim(ReaderNext(st).reader)
  {
  }

  /** The steps that are neither the writer's nor the reader's reading. */
  lemma RestKeepsClaim(st: State, a: Action)
    requires Inv(st) && GenerationOk(st) && ClaimIntact(st) && OfferedOk(st) && Enabled(st, a)
    requires !a.WriterStep? && !a.ReaderStep? && Sized(Next(st, a))
    ensures GenerationOk(Next(st, a)) && ClaimIntact(Next(st, a)) && OfferedOk(Next(st, a))
  {
  }

  lemma StepKeepsFullInv(st: State, a: Action) returns (st': State)
    requires FullInv(st) && Enabled(st, a)
    ensures st' == Next(st, a) && FullInv(st')
  {
    st' := StepKeepsInv(st, a);
    if a.WriterStep? {
      WriterKeepsGeneration(st, a.outcome);
      WriterKeepsOffered(st, a.outcome);
      WriterKeepsClaim(st, a.outcome);
    } else if a.ReaderStep? {
      if st.reader.TryClaim? {
        assert SlotAt(st, st.reader.candidate.index);
        ClaimStartsIntact(st);
      } else if HoldsClaim(st.reader) {
        ReadingKeepsClaim(st);
      } else {
        LookingClaimsNothing(st);
      }
      ReaderKeepsCounts(st);
    } else {
      RestKeepsClaim(st, a);
    }
  }

  lemma RunsKeepFullInv(states: seq<State>, actions: seq<Action>, i: nat)
    requires IsRun(states, actions) && i < |states|
    ensures FullInv(states[i])
  {
    InitialInv(states[0]);
    for k := 0 to i
      invariant FullInv(states[k])
    {
      assert Follows(states, actions, k);
      var st' := StepKeepsFullInv(states[k], actions[k]);
    }
  }

  lemma GenerationGrows(st: State, a: Action)
    requires Sized(st) && GenerationOk(st) && Enabled(st, a)
    ensures Next(st, a).generation >= st.generation
  {
    if a.WriterStep? { WriterKeepsGeneration(st, a.outcome); }
    if a.ReaderStep? && !st.reader.TryClaim? { LookingMovesOnly(st); }
  }

  lemma {:induction false} GenerationsOnlyGrow(states: seq<State>, actions: seq<Action>, m: nat, n: nat)
    requires IsRun(states, actions) && m <= n < |states|
    ensures states[m].generation <= states[n].generation
    decreases n - m
  {
    if m < n {
      GenerationsOnlyGrow(states, actions, m, n - 1);
      RunsKeepFullInv(states, actions, n - 1);
      assert Follows(states, actions, n - 1);
      GenerationGrows(states[n - 1], actions[n - 1]);
    }
  }

  /** The compare-exchange at step k took the claim the reader still has at step n. */
  ghost predicate ClaimedAt(states: seq<State>, k: nat, n: nat) {
    && k < n < |states| && states[k].reader.TryClaim?
    && forall j :: k < j <= n ==> HoldsClaim(states[j].reader)
  }

  lemma {:induction false} ClaimRemembers(states: seq<State>, actions: seq<Action>, k: nat, n: nat)
    requires IsRun(states, actions) && ClaimedAt(states, k, n)
    ensures states[n].reader.c.tookAt == states[k].generation && states[n].reader.c.epoch == states[k].epoch
    decreases n
  {
    assert Follows(states, actions, n - 1);
    if k + 1 < n { ClaimRemembers(states, actions, k, n - 1); }
  }

  // ----- without a rebuild -----

  predicate NoRebuild(actions: seq<Action>, k: nat, n: nat) {
    n <= |actions| && forall j :: k <= j < n ==> !actions[j].Retire? && !actions[j].Disable?
  }

  /** The epoch moves only when a rebuild begins or ends. */
  lemma EpochStands(st: State, a: Action)
    requires Sized(st) && Enabled(st, a) && !a.Retire? && !a.Disable? && !Resetting(st.writer)
    ensures Next(st, a).epoch == st.epoch && !Resetting(Next(st, a).writer)
  {
  }

  lemma {:induction false} QuietEpoch(states: seq<State>, actions: seq<Action>, k: nat, n: nat)
    requires IsRun(states, actions) && k <= n < |states| && NoRebuild(actions, k, n) && !Resetting(states[k].writer)
    ensures states[n].epoch == states[k].epoch && !Resetting(states[n].writer)
    decreases n - k
  {
    if k < n {
      QuietEpoch(states, actions, k, n - 1);
      assert Follows(states, actions, n - 1);
      EpochStands(states[n - 1], actions[n - 1]);
    }
  }

  /** A claim made outside a rebuild is fresh until the next one begins. */
  lemma ClaimStaysFresh(states: seq<State>, actions: seq<Action>, k: nat, n: nat)
    requires IsRun(states, actions) && ClaimedAt(states, k, n)
    requires !Resetting(states[k].writer) && NoRebuild(actions, k, n)
    ensures Fresh(states[n], states[n].reader.c)
  {
    ClaimRemembers(states, actions, k, n);
    QuietEpoch(states, actions, k, n);
    RunsKeepInv(states, actions, k);
  }

  // ----- publishes, as the shared section shows them -----

  /** A slot turns PUBLISHED. */
  ghost predicate Publishes(st: State, st': State) {
    exists i :: 0 <= i < |st.slots| && |st'.slots| == |st.slots| && TurnsPublished(st, st', i)
  }

  predicate TurnsPublished(st: State, st': State, i: nat)
    requires i < |st.slots| == |st'.slots|
  {
    st.slots[i].state != PUBLISHED && st'.slots[i].state == PUBLISHED
  }

  /** How often a slot turned PUBLISHED before step n. */
  ghost function Publications(states: seq<State>, n: nat): nat
    requires n < |states|
  {
    if n == 0 then 0 else Publications(states, n - 1) + One(Publishes(states[n - 1], states[n]))
  }

  lemma OthersPublishNothing(st: State, a: Action, i: nat)
    requires Sized(st) && Enabled(st, a) && !a.WriterStep? && i < |st.slots|
    ensures |Next(st, a).slots| == |st.slots| && !TurnsPublished(st, Next(st, a), i)
  {
    if a.ReaderStep? && !st.reader.TryClaim? { LookingMovesOnly(st); }
  }

  lemma LastStorePublishes(st: State, outcome: Outcome, i: nat)
    requires Sized(st) && st.writer.StorePublished? && !st.disabled && i < |st.slots| && SlotAt(st, i)
    ensures |WriterNext(st, outcome).slots| == |st.slots|
    ensures TurnsPublished(st, WriterNext(st, outcome), i) <==> st.writer.index == i
  {
  }

  lemma OtherStoresDoNot(st: State, outcome: Outcome, i: nat)
    requires Sized(st) && Enabled(st, WriterStep(outcome)) && !st.writer.StorePublished? && i < |st.slots|
    ensures |WriterNext(st, outcome).slots| == |st.slots| && !TurnsPublished(st, WriterNext(st, outcome), i)
  {
  }

  /** The writer's last store makes its slot PUBLISHED, and no other step makes any. */
  lemma PublishesAt(st: State, a: Action, i: nat)
    requires Inv(st) && Enabled(st, a) && i < |st.slots|
    ensures |Next(st, a).slots| == |st.slots|
    ensures TurnsPublished(st, Next(st, a), i) <==> a.WriterStep? && st.writer.StorePublished? && st.writer.index == i
  {
    assert SlotAt(st, i);
    if !a.WriterStep? { OthersPublishNothing(st, a, i); }
    else if st.writer.StorePublished? { LastStorePublishes(st, a.outcome, i); }
    else { OtherStoresDoNot(st, a.outcome, i); }
  }

  lemma PublishesExactly(st: State, a: Action) returns (st': State)
    requires Inv(st) && Enabled(st, a)
    ensures st' == Next(st, a) && |st'.slots| == |st.slots|
    ensures Publishes(st, st') <==> a.WriterStep? && st.writer.StorePublished?
  {
    st' := Next(st, a);
    PublishesAt(st, a, 0);
    if i :| 0 <= i < |st.slots| && TurnsPublished(st, st', i) { PublishesAt(st, a, i); }
    if a.WriterStep? && st.writer.StorePublished? {
      PublishesAt(st, a, st.writer.index);
      assert TurnsPublished(st, st', st.writer.index);
    }
  }

  lemma LogGrowsOnlyInCopy(st: State, outcome: Outcome)
    requires Sized(st) && Enabled(st, WriterStep(outcome))
    ensures !st.writer.Copy? ==> WriterNext(st, outcome).log == st.log
    ensures st.writer.Copy? ==>
              |WriterNext(st, outcome).log| == |st.log| + One(Storing(WriterNext(st, outcome).writer))
  {
  }

  lemma StoringGoesOn(st: State, outcome: Outcome)
    requires Sized(st) && Enabled(st, WriterStep(outcome)) && !st.writer.Copy?
    ensures Storing(WriterNext(st, outcome).writer) <==> Storing(st.writer) && !st.writer.StorePublished?
  {
  }

  lemma OthersStoreNothing(st: State, a: Action)
    requires Sized(st) && Enabled(st, a) && !a.WriterStep?
    ensures Next(st, a).log == st.log && (Storing(Next(st, a).writer) <==> Storing(st.writer))
  {
  }

  lemma LogGrows(st: State, a: Action)
    requires Sized(st) && Enabled(st, a)
    ensures |Next(st, a).log| + One(Storing(st.writer)) ==
            |st.log| + One(Storing(Next(st, a).writer)) + One(a.WriterStep? && st.writer.StorePublished?)
  {
    if a.WriterStep? {
      LogGrowsOnlyInCopy(st, a.outcome);
      if !st.writer.Copy? { StoringGoesOn(st, a.outcome); }
    } else {
      OthersStoreNothing(st, a);
    }
  }

  lemma {:induction false} PublicationsAreLogged(states: seq<State>, actions: seq<Action>, n: nat)
    requires IsRun(states, actions) && n < |states|
    ensures Publications(states, n) + One(Storing(states[n].writer)) == |states[n].log|
  {
    if n > 0 {
      PublicationsAreLogged(states, actions, n - 1);
      RunsKeepInv(states, actions, n - 1);
      assert Follows(states, actions, n - 1);
      var st' := PublishesExactly(states[n - 1], actions[n - 1]);
      LogGrows(states[n - 1], actions[n - 1]);
    }
  }

  // ----- a claim the writer does not disturb -----

  /** What the scan has found of the first k slots. */
  predicate FoundNewest(slots: seq<Meta>, k: nat, best: Option<Best>)
    requires k <= |slots|
  {
    match NewestAmong(slots, k)
    case None => best.None?
    case Some(i) => best == Some(Best(i, slots[i].sequence))
  }

  /** The claim is of the newest published frame, and what has been read of it is that frame. */
  predicate ClaimsNewest(start: State, r: Reader)
    requires HoldsClaim(r)
  {
    && NewestAmong(start.slots, |start.slots|) == Some(r.c.index)
    && var m := start.slots[r.c.index];
       && (!r.ReadSequence? ==> r.c.sequence == m.sequence)
       && (!r.ReadSequence? && !r.ReadQpc? ==> r.c.presentQpc == m.presentQpc)
       && (r.ReadGeneration? || r.Holding? ==> r.c.fence == m.fence)
       && (r.Holding? ==> r.c.generation == start.generation)
  }

  /** Where an undisturbed claim can be, and what it has made of the slots. */
  predicate QuietClaim(start: State, st: State) {
    && |st.slots| == |start.slots| && st.generation == start.generation
    && match st.reader
       case Away => st.slots == start.slots && NewestAmong(start.slots, |start.slots|).None?
       case LookState(tries, k, best) =>
         st.slots == start.slots && tries == 0 && k <= |start.slots| && FoundNewest(start.slots, k, best)
       case LookSequence(tries, k, best) =>
         && st.slots == start.slots && tries == 0 && k < |start.slots| && FoundNewest(start.slots, k, best)
         && start.slots[k].state == PUBLISHED
       case TryClaim(_, candidate) =>
         st.slots == start.slots && FoundNewest(start.slots, |start.slots|, Some(candidate))
       case _ => ClaimsNewest(start, st.reader) && st.slots == SetState(start.slots, st.reader.c.index, READING)
  }

  /** The steps it has left, at most. */
  function ClaimStepsLeft(n: nat, r: Reader): nat {
    match r
    case Away => 0
    case LookState(_, k, _) => if k <= n then 2 * (n - k) + 6 else 0
    case LookSequence(_, k, _) => if k <= n then 2 * (n - k) + 5 else 0
    case TryClaim(_, _) => 5
    case ReadSequence(_) => 4
    case ReadQpc(_) => 3
    case ReadFence(_) => 2
    case ReadGeneration(_) => 1
    case Holding(_) => 0
  }

  lemma QuietTake(start: State, st: State)
    requires Sized(st) && st.reader.TryClaim? && QuietClaim(start, st)
    ensures QuietClaim(start, ReaderNext(st)) && ReaderNext(st).reader.ReadSequence?
  {
  }

  lemma QuietLook(start: State, st: State)
    requires Sized(st) && Enabled(st, ReaderStep) && !st.reader.TryClaim? && !HoldsClaim(st.reader)
    requires QuietClaim(start, st)
    ensures QuietClaim(start, ReaderNext(st))
    ensures ClaimStepsLeft(|start.slots|, ReaderNext(st).reader) < ClaimStepsLeft(|start.slots|, st.reader)
  {
    LookingMovesOnly(st);
  }

  lemma QuietReading(start: State, st: State)
    requires Sized(st) && Enabled(st, ReaderStep) && HoldsClaim(st.reader) && QuietClaim(start, st)
    ensures QuietClaim(start, ReaderNext(st))
    ensures ClaimStepsLeft(|start.slots|, ReaderNext(st).reader) < ClaimStepsLeft(|start.slots|, st.reader)
  {
    LookingMovesOnly(st);
  }

  lemma QuietClaimStep(start: State, st: State)
    requires Sized(st) && Enabled(st, ReaderStep) && QuietClaim(start, st)
    ensures QuietClaim(start, ReaderNext(st))
    ensures ClaimStepsLeft(|start.slots|, ReaderNext(st).reader) < ClaimStepsLeft(|start.slots|, st.reader)
  {
    if st.reader.TryClaim? { QuietTake(start, st); }
    else if HoldsClaim(st.reader) { QuietReading(start, st); }
    else { QuietLook(start, st); }
  }

  /** From step i on, the reader claims and nobody else takes a step. */
  predicate UndisturbedClaim(actions: seq<Action>, i: nat, j: nat) {
    && i < j <= |actions| && actions[i] == ReaderBegin
    && forall k :: i < k < j ==> actions[k] == ReaderStep
  }

  lemma QuietClaimRuns(states: seq<State>, actions: seq<Action>, i: nat, j: nat)
    requires IsRun(states, actions) && UndisturbedClaim(actions, i, j)
    ensures QuietClaim(states[i], states[j])
    ensures ClaimStepsLeft(|states[i].slots|, states[j].reader) + (j - i - 1) <= 2 * |states[i].slots| + 6
  {
    assert Follows(states, actions, i);
    for k := i + 1 to j
      invariant QuietClaim(states[i], states[k])
      invariant ClaimStepsLeft(|states[i].slots|, states[k].reader) + (k - i - 1) <= 2 * |states[i].slots| + 6
    {
      assert Follows(states, actions, k);
      QuietClaimStep(states[i], states[k]);
    }
  }

  // ----- why a frame is refused -----

  /** At step j the writer looked at slot k, for the frame it is still deciding on at step n. */
  ghost predicate LookedAt(states: seq<State>, j: nat, n: nat, k: nat) {
    && j < n < |states| && states[j].writer == Reconcile(k)
    && forall x :: j < x <= n ==> states[x].writer.Reconcile? && states[x].writer.k > k
  }

  /** And what it saw is what its policy still says. */
  ghost predicate SeenAt(states: seq<State>, j: nat, n: nat, k: nat) {
    && LookedAt(states, j, n, k) && k < |states[j].slots| && k < |states[n].policy.slots|
    && Tells(states[n].policy.slots[k], states[j].slots[k])
  }

  /** The reader was holding slot k when it was looked at for the frame decided on at step n. */
  ghost predicate HeldWhenLookedAt(states: seq<State>, n: nat, k: nat) {
    exists j: nat :: LookedAt(states, j, n, k) && k < |states[j].slots| && states[j].slots[k].state == READING
  }

  lemma DecidingChangesOneSlot(st: State, a: Action, k: nat)
    requires Sized(st) && Enabled(st, a) && st.writer.Reconcile? && Next(st, a).writer.Reconcile?
    requires k < |st.policy.slots|
    ensures var st' := Next(st, a);
            && |st'.policy.slots| == |st.policy.slots|
            && (if st.writer == Reconcile(k) && a.WriterStep?
                then k < |st.slots| && st'.writer == Reconcile(k + 1)
                     && st'.policy.slots[k] == Absorbed(st.policy.slots[k], st.slots[k].state)
                else st'.policy.slots[k] == st.policy.slots[k] && (st'.writer == st.writer || st'.writer == Reconcile(st.writer.k + 1)))
  {
    if a.ReaderStep? && !st.reader.TryClaim? { LookingMovesOnly(st); }
  }

  lemma LookGoesOn(states: seq<State>, actions: seq<Action>, j: nat, n: nat, k: nat)
    requires IsRun(states, actions) && n + 1 < |states| && SeenAt(states, j, n, k) && states[n + 1].writer.Reconcile?
    ensures SeenAt(states, j, n + 1, k)
  {
    assert Follows(states, actions, n);
    DecidingChangesOneSlot(states[n], actions[n], k);
  }

  lemma LookBegins(states: seq<State>, actions: seq<Action>, n: nat, k: nat)
    requires IsRun(states, actions) && n + 1 < |states| && k < |states[n].slots|
    requires states[n].writer == Reconcile(k) && states[n + 1].writer == Reconcile(k + 1)
    ensures SeenAt(states, n, n + 1, k)
  {
    RunsKeepInv(states, actions, n);
    assert Follows(states, actions, n);
    assert actions[n].WriterStep?;
    DecidingChangesOneSlot(states[n], actions[n], k);
    assert SlotAt(states[n], k);
    AbsorbedTells(states[n].policy.slots[k], states[n].slots[k]);
  }

  /** While it decides, the policy says of every slot looked at what that look saw. */
  lemma {:induction false} EveryLookIsTold(states: seq<State>, actions: seq<Action>, n: nat, k: nat) returns (j: nat)
    requires IsRun(states, actions) && n < |states| && states[n].writer.Reconcile? && k < states[n].writer.k
    ensures SeenAt(states, j, n, k)
    decreases n
  {
    RunsKeepInv(states, actions, n);
    if n == 0 { assert false; }
    RunsKeepInv(states, actions, n - 1);
    assert Follows(states, actions, n - 1);
    DecidingStep(states[n - 1], actions[n - 1]);
    if states[n - 1].writer == Reconcile(k) {
      j := n - 1;
      LookBegins(states, actions, n - 1, k);
    } else {
      j := EveryLookIsTold(states, actions, n - 1, k);
      LookGoesOn(states, actions, j, n - 1, k);
    }
  }

  /** The writer is deciding because it just began, stood still, or looked at one slot more. */
  lemma DecidingStep(st: State, a: Action)
    requires Sized(st) && Enabled(st, a) && Next(st, a).writer.Reconcile?
    ensures || (a.WriterBegin? && Next(st, a).writer.k == 0)
            || (st.writer.Reconcile? && Next(st, a).writer == st.writer)
            || (st.writer.Reconcile? && a.WriterStep? && st.writer.k < |st.slots|
                && Next(st, a).writer == Reconcile(st.writer.k + 1))
  {
    if a.WriterStep? { WriterDecidesOn(st, a.outcome); }
    else if a.ReaderStep? { ReaderLeavesTheWriter(st); }
  }

  lemma ReaderLeavesTheWriter(st: State)
    requires Sized(st) && Enabled(st, ReaderStep)
    ensures ReaderNext(st).writer == st.writer
  {
    if !st.reader.TryClaim? { LookingMovesOnly(st); }
  }

  lemma WriterDecidesOn(st: State, outcome: Outcome)
    requires Sized(st) && Enabled(st, WriterStep(outcome)) && WriterNext(st, outcome).writer.Reconcile?
    ensures st.writer.Reconcile? && st.writer.k < |st.slots| && WriterNext(st, outcome).writer == Reconcile(st.writer.k + 1)
  {
  }

  lemma WriterRefuses(st: State, outcome: Outcome)
    requires Sized(st) && Enabled(st, WriterStep(outcome)) && WriterNext(st, outcome).refused > st.refused
    ensures st.writer == Reconcile(|st.slots|) && Acquired(st.policy).1.None?
  {
  }

  lemma ReaderRefusesNothing(st: State)
    requires Sized(st) && Enabled(st, ReaderStep)
    ensures ReaderNext(st).refused == st.refused
  {
    if !st.reader.TryClaim? { LookingMovesOnly(st); }
  }

  /** Only the choice refuses a frame, and only when the policy offers no slot. */
  lemma RefusalIsAChoice(st: State, a: Action)
    requires Sized(st) && Enabled(st, a) && Next(st, a).refused > st.refused
    ensures a.WriterStep? && st.writer == Reconcile(|st.slots|) && Acquired(st.policy).1.None?
  {
    if a.WriterStep? { WriterRefuses(st, a.outcome); }
    else if a.ReaderStep? { ReaderRefusesNothing(st); }
  }

  // ----- when a claim gives up -----

  /** The reader began a claim at step i and is still at it at step n. */
  ghost predicate Claiming(states: seq<State>, actions: seq<Action>, i: nat, n: nat) {
    && i < n < |states| && i < |actions| && actions[i] == ReaderBegin
    && forall k :: i < k <= n ==> Seeking(states[k].reader)
  }

  predicate Seeking(r: Reader) { r.LookState? || r.LookSequence? || r.TryClaim? }

  predicate LosesRace(st: State, a: Action) {
    a.ReaderStep? && st.reader.TryClaim? && st.reader.candidate.index < |st.slots|
    && st.slots[st.reader.candidate.index].state != PUBLISHED
  }

  /** The steps at which the frame to be claimed was gone. */
  ghost function LostRaces(states: seq<State>, actions: seq<Action>): seq<bool>
    requires |states| == |actions| + 1
  {
    seq(|actions|, k requires 0 <= k < |actions| => LosesRace(states[k], actions[k]))
  }

  predicate TriesAre(r: Reader, slots: nat, count: nat) {
    match r
    case LookState(tries, _, _) => tries == count <= slots
    case LookSequence(tries, _, _) => tries == count <= slots
    case TryClaim(tries, _) => tries == count <= slots
    case _ => true
  }

  lemma OneRace(st: State, a: Action, count: nat)
    requires Sized(st) && Enabled(st, a) && Seeking(st.reader) && TriesAre(st.reader, |st.slots|, count)
    ensures |Next(st, a).slots| == |st.slots|
    ensures TriesAre(Next(st, a).reader, |st.slots|, if LosesRace(st, a) then count + 1 else count)
  {
    if a.WriterStep? { WriterLeavesTheReader(st, a.outcome); }
    else if a.ReaderStep? && !st.reader.TryClaim? { LookingMovesOnly(st); }
  }

  lemma WriterLeavesTheReader(st: State, outcome: Outcome)
    requires Sized(st) && Enabled(st, WriterStep(outcome))
    ensures WriterNext(st, outcome).reader == st.reader && |WriterNext(st, outcome).slots| == |st.slots|
  {
  }

  lemma {:induction false} RacesAreCounted(states: seq<State>, actions: seq<Action>, i: nat, n: nat)
    requires IsRun(states, actions) && Claiming(states, actions, i, n)
    ensures TriesAre(states[n].reader, |states[n].slots|, Count(LostRaces(states, actions), i, n))
    decreases n
  {
    assert Follows(states, actions, n - 1);
    if n > i + 1 {
      RacesAreCounted(states, actions, i, n - 1);
      OneRace(states[n - 1], actions[n - 1], Count(LostRaces(states, actions), i, n - 1));
    } else {
      assert Count(LostRaces(states, actions), i, i) == 0;
    }
  }

  /** In the scan the reader is in at step n, it looked at slot s at step x and found nothing published. */
  ghost predicate FoundNothing(states: seq<State>, x: nat, n: nat, s: nat) {
    && x < n < |states| && states[x].reader.LookState? && states[x].reader.k == s && s < |states[x].slots|
    && states[x].slots[s].state != PUBLISHED
    && forall y :: x < y <= n ==> states[y].reader.LookState? && states[y].reader.k > s
  }

  /** Where a scan with nothing found can have come from. */
  lemma EmptyLook(st: State, a: Action)
    requires Sized(st) && Enabled(st, a) && Next(st, a).reader.LookState? && Next(st, a).reader.best.None?
    requires Next(st, a).reader.k > 0
    ensures st.reader.LookState? && st.reader.best.None?
    ensures || (Next(st, a).reader == st.reader)
            || (a.ReaderStep? && st.reader.k < |st.slots| && Next(st, a).reader.k == st.reader.k + 1
                && st.slots[st.reader.k].state != PUBLISHED)
  {
    if a.WriterStep? { WriterLeavesTheReader(st, a.outcome); }
  }

  lemma {:induction false} EmptyScan(states: seq<State>, actions: seq<Action>, n: nat, s: nat) returns (x: nat)
    requires IsRun(states, actions) && n < |states|
    requires states[n].reader.LookState? && states[n].reader.best.None? && s < states[n].reader.k
    ensures FoundNothing(states, x, n, s)
    decreases n
  {
    if n == 0 { assert false; }
    assert Follows(states, actions, n - 1);
    EmptyLook(states[n - 1], actions[n - 1]);
    if states[n - 1].reader.k == s {
      x := n - 1;
    } else {
      x := EmptyScan(states, actions, n - 1, s);
    }
  }
}
