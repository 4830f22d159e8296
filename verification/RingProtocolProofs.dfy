/** What every step of the ring keeps. */
module RingProtocolProofs {
  import opened Ring
  import opened RingProtocol

  // ----- the invariant, slot by slot -----

  /** The frame in the slot is the frame its sequence was published with. */
  ghost predicate Shows(log: seq<Frame>, m: Meta) {
    1 <= m.sequence <= |log| && Frame(m.presentQpc, m.fence) == log[m.sequence - 1]
  }

  /** The policy's belief and the shared state, for a slot the writer is not busy with. */
  predicate Agrees(p: Slot, m: Meta) {
    match p
    case Free => m.state == FREE || m.state == READING
    case Published(s) => m.sequence == s && (m.state == PUBLISHED || m.state == READING || m.state == FREE)
    case Reading => m.state == READING || m.state == FREE
    case Writing => false
  }

  /** What the policy says of a slot is what the shared word says. */
  predicate Tells(p: Slot, m: Meta) {
    && (p.Free? <==> m.state == FREE) && (p.Reading? <==> m.state == READING)
    && (p == Published(m.sequence) <==> m.state == PUBLISHED) && !p.Writing?
  }

  /** Absorbing the shared state of a slot it agrees with, the policy believes just what it has seen: a
      frame taken is Reading, a slot given back is Free, whatever it believed before. */
  lemma AbsorbedTells(p: Slot, m: Meta)
    requires Agrees(p, m)
    ensures Tells(Absorbed(p, m.state), m)
  {
  }

  predicate HasSlot(w: Writer) { !w.Rest? && !w.Reconcile? && !w.Reset? && !w.SetGeneration? }

  predicate Busy(w: Writer, i: nat) { HasSlot(w) && w.index == i }

  /** The slot the writer is busy with. */
  predicate InHand(p: Slot, m: Meta, w: Writer)
    requires HasSlot(w)
  {
    match w
    case Take(_, None) => p.Writing? && m.state == FREE
    case Take(_, Some(s)) =>
      p.Writing? && m.sequence == s && (m.state == PUBLISHED || m.state == READING || m.state == FREE)
    case Copy(_) => p.Writing? && m.state == WRITING
    case Stuck(_) => p.Writing? && m.state == WRITING
    case ResetOne(_) => p.Free? && m.state == WRITING
    case StoreSequence(_, s, f) => p == Published(s) && m.state == WRITING
    case StoreQpc(_, s, f) => p == Published(s) && m.state == WRITING && m.sequence == s
    case StoreFence(_, s, f) => p == Published(s) && m.state == WRITING && m.sequence == s && m.presentQpc == f.presentQpc
    case StorePublished(_, s, f) =>
      p == Published(s) && m == Meta(WRITING, s, f.presentQpc, f.fence)
  }

  predicate Resetting(w: Writer) { w.Reset? || w.SetGeneration? }

  /** While a slot is reset, slots below k are FREE. */
  predicate ResetDone(m: Meta, w: Writer, i: nat) {
    && (w.Reset? && i < w.k ==> m.state == FREE)
    && (w.SetGeneration? ==> m.state == FREE)
  }

  predicate Believes(p: Slot, m: Meta, w: Writer, i: nat) {
    if Busy(w, i) then InHand(p, m, w)
    else Agrees(p, m) && (w.Reconcile? && i < w.k && p.Free? ==> m.state == FREE)
  }

  ghost predicate SlotOk(p: Slot, m: Meta, w: Writer, r: Reader, disabled: bool, log: seq<Frame>, i: nat) {
    && m.state <= READING
    && (!disabled && !Resetting(w) ==> Believes(p, m, w, i))
    && (Resetting(w) ==> ResetDone(m, w, i))
    && (disabled && !Resetting(w) ==> m.state != WRITING)
    && ((w.Reset? && !w.disabling) || w.SetGeneration? ==> p.Free?)
    && (m.state == READING ==> Holds(r, i))
    && (m.state == PUBLISHED || m.state == READING ==> Shows(log, m))
    && m.sequence <= |log|
  }

  ghost predicate SlotsOk(st: State)
    requires Sized(st)
  {
    forall i :: 0 <= i < |st.slots| ==>
      SlotOk(st.policy.slots[i], st.slots[i], st.writer, st.reader, st.disabled, st.log, i)
  }

  predicate Storing(w: Writer) { w.StoreSequence? || w.StoreQpc? || w.StoreFence? || w.StorePublished? }

  ghost predicate PolicyOk(st: State) {
    && st.policy.nextSequence == |st.log| + 1
    && st.policy.framesPublished == |st.log|
    && (Storing(st.writer) ==>
          st.log != [] && st.writer.sequence == |st.log| && st.writer.frame == st.log[|st.log| - 1])
    && (st.disabled ==> st.writer.Rest? || Resetting(st.writer))
    && (st.writer.Reset? && st.writer.disabling ==> st.disabled)
    && (st.epoch % 2 == 1 <==> Resetting(st.writer))
    && forall k :: 0 <= k < |st.log| ==> st.log[k].fence == 0 || st.log[k].fence == k + 1
  }

  // ----- the reader -----

  ghost predicate Fresh(st: State, c: Claim) { c.epoch == st.epoch && st.epoch % 2 == 0 }

  ghost predicate BestOk(slots: seq<Meta>, best: Best) {
    best.index < |slots| && best.sequence <= slots[best.index].sequence
  }

  /** With no rebuild since the claim, the slot is the reader's and what was read of it is what it holds. */
  ghost predicate ClaimOk(m: Meta, r: Reader)
    requires HoldsClaim(r)
  {
    && m.state == READING && r.c.scanned <= m.sequence
    && (!r.ReadSequence? ==> r.c.sequence == m.sequence)
    && (!r.ReadSequence? && !r.ReadQpc? ==> r.c.presentQpc == m.presentQpc)
    && (r.ReadGeneration? || r.Holding? ==> r.c.fence == m.fence)
  }

  ghost predicate ReaderOk(st: State)
    requires Sized(st)
  {
    match st.reader
    case Away => true
    case LookState(_, _, best) => best.Some? ==> BestOk(st.slots, best.value)
    case LookSequence(_, _, best) => best.Some? ==> BestOk(st.slots, best.value)
    case TryClaim(_, candidate) => BestOk(st.slots, candidate)
    case _ =>
      && st.reader.c.epoch <= st.epoch
      && (Fresh(st, st.reader.c) ==>
            && ClaimOk(st.slots[st.reader.c.index], st.reader)
            && (st.reader.Holding? ==> st.reader.c.generation == st.generation))
  }

  // ----- accounting -----

  function CountPublished(slots: seq<Meta>): nat {
    if slots == [] then 0
    else CountPublished(slots[..|slots| - 1]) + if slots[|slots| - 1].state == PUBLISHED then 1 else 0
  }

  function One(b: bool): nat { if b then 1 else 0 }

  ghost predicate AccountOk(st: State) {
    && st.policy.framesPublished ==
       st.claimed + st.overwritten + CountPublished(st.slots) + st.cleared + One(Storing(st.writer))
    && st.policy.framesDropped ==
       st.refused + st.aborted + st.overwritten + 2 * st.lost + One(st.writer.Take? && st.writer.overwrote.Some?)
  }

  // ----- the newest frame -----

  predicate OutsideWrite(w: Writer) { w.Rest? || w.Reconcile? || w.Take? }

  ghost predicate NewestAt(st: State, i: nat) {
    i < |st.slots| && st.slots[i].state == PUBLISHED && st.slots[i].sequence == |st.log|
  }

  ghost predicate NewestOk(st: State) {
    && st.base <= |st.log| && st.lastClaimed <= |st.log|
    && (st.writer.ResetOne? ==> !st.clean)
    && (st.clean && !st.disabled && OutsideWrite(st.writer) ==>
          |st.log| == st.base || st.lastClaimed == |st.log| || exists i :: NewestAt(st, i))
  }

  ghost predicate Inv(st: State) {
    Sized(st) && SlotsOk(st) && PolicyOk(st) && ReaderOk(st) && AccountOk(st) && NewestOk(st)
  }

  lemma InitialInv(st: State)
    requires Initial(st)
    ensures Inv(st)
  {
    NothingPublished(st.slots);
  }

  lemma {:induction false} NothingPublished(slots: seq<Meta>)
    requires forall i :: 0 <= i < |slots| ==> slots[i].state != PUBLISHED
    ensures CountPublished(slots) == 0
  {
    if slots != [] { NothingPublished(slots[..|slots| - 1]); }
  }

  /** Changing one slot changes the count by that slot. */
  lemma {:induction false} CountAfter(slots: seq<Meta>, i: nat, m: Meta)
    requires i < |slots|
    ensures CountPublished(slots[i := m]) + One(slots[i].state == PUBLISHED) ==
            CountPublished(slots) + One(m.state == PUBLISHED)
  {
    var n := |slots| - 1;
    if i < n {
      CountAfter(slots[..n], i, m);
      assert slots[i := m][..n] == slots[..n][i := m];
    } else {
      assert slots[i := m][..n] == slots[..n];
    }
  }

  // ----- the reader's steps -----

  /** The invariant of slot i. */
  ghost predicate SlotAt(st: State, i: nat)
    requires Sized(st) && i < |st.slots|
  {
    SlotOk(st.policy.slots[i], st.slots[i], st.writer, st.reader, st.disabled, st.log, i)
  }

  /** Looking and reading move the reader and nothing else. */
  lemma LookingMovesOnly(st: State)
    requires Sized(st) && Enabled(st, ReaderStep) && !st.reader.TryClaim?
    ensures ReaderNext(st) == st.(reader := ReaderNext(st).reader)
  {
  }

  lemma ReaderIsSized(st: State)
    requires Sized(st) && Enabled(st, ReaderStep)
    ensures Sized(ReaderNext(st))
  {
  }

  /** Everything but the claim leaves the shared section alone. */
  lemma LookingKeepsSlots(st: State)
    requires Inv(st) && Enabled(st, ReaderStep) && !st.reader.TryClaim?
    ensures Sized(ReaderNext(st)) && SlotsOk(ReaderNext(st))
  {
    ReaderIsSized(st);
    LookingMovesOnly(st);
    var st' := ReaderNext(st);
    forall i | 0 <= i < |st'.slots| ensures SlotAt(st', i) { assert SlotAt(st, i); }
  }

  lemma ClaimedSlotOk(p: Slot, m: Meta, w: Writer, r: Reader, r': Reader, disabled: bool, log: seq<Frame>, i: nat)
    requires SlotOk(p, m, w, r, disabled, log, i) && m.state == PUBLISHED && Holds(r', i)
    ensures SlotOk(p, m.(state := READING), w, r', disabled, log, i)
  {
  }

  lemma ClaimingKeepsSlots(st: State)
    requires Inv(st) && st.reader.TryClaim?
    ensures Sized(ReaderNext(st)) && SlotsOk(ReaderNext(st))
  {
    ReaderIsSized(st);
    var st', k := ReaderNext(st), st.reader.candidate.index;
    forall i | 0 <= i < |st'.slots| ensures SlotAt(st', i) {
      assert SlotAt(st, i);
      if i == k && st.slots[k].state == PUBLISHED {
        ClaimedSlotOk(st.policy.slots[k], st.slots[k], st.writer, st.reader, st'.reader, st.disabled, st.log, k);
      }
    }
  }

  lemma LookingKeepsReader(st: State)
    requires Inv(st) && Enabled(st, ReaderStep) && !HoldsClaim(st.reader)
    ensures Sized(ReaderNext(st)) && ReaderOk(ReaderNext(st))
  {
    ReaderIsSized(st);
  }

  lemma ReadingKeepsReader(st: State)
    requires Inv(st) && Enabled(st, ReaderStep) && HoldsClaim(st.reader)
    ensures Sized(ReaderNext(st)) && ReaderOk(ReaderNext(st))
  {
  }

  lemma ReaderKeepsPolicy(st: State)
    requires Sized(st) && PolicyOk(st) && Enabled(st, ReaderStep)
    ensures PolicyOk(ReaderNext(st))
  {
    if !st.reader.TryClaim? { LookingMovesOnly(st); }
  }

  lemma ReaderKeepsAccount(st: State)
    requires Sized(st) && AccountOk(st) && Enabled(st, ReaderStep)
    ensures AccountOk(ReaderNext(st))
  {
    if st.reader.TryClaim? {
      var i := st.reader.candidate.index;
      CountAfter(st.slots, i, st.slots[i].(state := READING));
    } else {
      LookingMovesOnly(st);
    }
  }

  lemma ReaderKeepsNewest(st: State)
    requires Inv(st) && Enabled(st, ReaderStep)
    ensures NewestOk(ReaderNext(st))
  {
    var st' := ReaderNext(st);
    if st.reader.TryClaim? {
      var i := st.reader.candidate.index;
      assert SlotOk(st.policy.slots[i], st.slots[i], st.writer, st.reader, st.disabled, st.log, i);
      if j :| NewestAt(st, j) && j != i { assert NewestAt(st', j); }
    } else {
      LookingMovesOnly(st);
      if j :| NewestAt(st, j) { assert NewestAt(st', j); }
    }
  }

  lemma ReleaseKeepsSlots(st: State)
    requires Inv(st) && st.reader.Holding?
    ensures Sized(Next(st, Release)) && SlotsOk(Next(st, Release))
  {
    var st' := Next(st, Release);
    forall j | 0 <= j < |st'.slots| ensures SlotAt(st', j) { assert SlotAt(st, j); }
  }

  lemma ReleaseKeepsInv(st: State)
    requires Inv(st) && st.reader.Holding?
    ensures Inv(Next(st, Release))
  {
    var st', i := Next(st, Release), st.reader.c.index;
    CountAfter(st.slots, i, st.slots[i].(state := FREE));
    ReleaseKeepsSlots(st);
    if j :| NewestAt(st, j) { assert NewestAt(st', j); }
  }

  // ----- the writer's steps -----

  /** All of the invariant but the slots'. */
  ghost predicate RestInv(st: State) {
    Sized(st) && PolicyOk(st) && ReaderOk(st) && AccountOk(st) && NewestOk(st)
  }

  lemma ReconcileKeepsInv(st: State)
    requires Inv(st) && st.writer.Reconcile? && st.writer.k < |st.slots|
    ensures Inv(WriterNext(st, Fails))
  {
    var st', k := WriterNext(st, Fails), st.writer.k;
    assert st' == st.(policy := Reconciled(st.policy, k, st.slots[k].state), writer := Reconcile(k + 1));
    forall i | 0 <= i < |st'.slots| ensures SlotAt(st', i) { assert SlotAt(st, i); }
    if j :| NewestAt(st, j) { assert NewestAt(st', j); }
  }

  lemma ChosenSlots(st: State)
    requires Inv(st) && st.writer == Reconcile(|st.slots|)
    ensures Sized(Chosen(st)) && SlotsOk(Chosen(st))
  {
    var st' := Chosen(st);
    AcquireMeaning(st.policy);
    forall i | 0 <= i < |st'.slots| ensures SlotAt(st', i) { assert SlotAt(st, i); }
  }

  lemma ChosenKeepsInv(st: State)
    requires Inv(st) && st.writer == Reconcile(|st.slots|)
    ensures Inv(Chosen(st))
  {
    var st' := Chosen(st);
    AcquireMeaning(st.policy);
    ChosenSlots(st);
    if j :| NewestAt(st, j) { assert NewestAt(st', j); }
  }

  lemma TakenSlots(st: State)
    requires Inv(st) && st.writer.Take?
    ensures var st' := TakenOrLost(st, st.writer.index, st.writer.overwrote); Sized(st') && SlotsOk(st')
  {
    var st' := TakenOrLost(st, st.writer.index, st.writer.overwrote);
    forall i | 0 <= i < |st'.slots| ensures SlotAt(st', i) { assert SlotAt(st, i); }
  }

  /** A free slot is never lost: only a frame the reader claimed in the meantime is. */
  lemma TakeIsLostOnlyToAClaim(st: State)
    requires Inv(st) && st.writer.Take?
    ensures st.writer.overwrote.None? ==> st.slots[st.writer.index].state == FREE
    ensures st.writer.overwrote.Some? ==>
              st.slots[st.writer.index].state == PUBLISHED
              || st.slots[st.writer.index].state == READING || st.slots[st.writer.index].state == FREE
    ensures !st.disabled && st.policy.slots[st.writer.index].Writing?
  {
    assert SlotAt(st, st.writer.index);
  }

  lemma LostKeepsRest(st: State)
    requires Inv(st) && st.writer.Take? && TakenOrLost(st, st.writer.index, st.writer.overwrote).writer.Rest?
    ensures RestInv(TakenOrLost(st, st.writer.index, st.writer.overwrote))
  {
    var st' := TakenOrLost(st, st.writer.index, st.writer.overwrote);
    TakeIsLostOnlyToAClaim(st);
    if j :| NewestAt(st, j) { assert NewestAt(st', j); }
  }

  lemma WonKeepsRest(st: State)
    requires Inv(st) && st.writer.Take? && TakenOrLost(st, st.writer.index, st.writer.overwrote).writer.Copy?
    ensures RestInv(TakenOrLost(st, st.writer.index, st.writer.overwrote))
  {
    TakeIsLostOnlyToAClaim(st);
    CountAfter(st.slots, st.writer.index, st.slots[st.writer.index].(state := WRITING));
  }

  lemma TakenKeepsRest(st: State)
    requires Inv(st) && st.writer.Take?
    ensures RestInv(TakenOrLost(st, st.writer.index, st.writer.overwrote))
  {
    if TakenOrLost(st, st.writer.index, st.writer.overwrote).writer.Rest? { LostKeepsRest(st); } else { WonKeepsRest(st); }
  }

  lemma ResetOneKeepsInv(st: State)
    requires Inv(st) && st.writer.ResetOne?
    ensures Inv(st.(slots := SetState(st.slots, st.writer.index, FREE), writer := Rest))
  {
    var k := st.writer.index;
    var st' := st.(slots := SetState(st.slots, k, FREE), writer := Rest);
    assert SlotAt(st, k);
    CountAfter(st.slots, k, st.slots[k].(state := FREE));
    forall i | 0 <= i < |st'.slots| ensures SlotAt(st', i) { assert SlotAt(st, i); }
  }

  lemma CopiedSlots(st: State, outcome: Outcome)
    requires Inv(st) && st.writer.Copy?
    ensures Sized(Copied(st, st.writer.index, outcome)) && SlotsOk(Copied(st, st.writer.index, outcome))
  {
    var st' := Copied(st, st.writer.index, outcome);
    forall i | 0 <= i < |st'.slots| ensures SlotAt(st', i) { assert SlotAt(st, i); }
  }

  lemma CopiedKeepsRest(st: State, outcome: Outcome)
    requires Inv(st) && st.writer.Copy?
    ensures RestInv(Copied(st, st.writer.index, outcome))
  {
  }

  /** One word of the metadata at a time; the slot stays WRITING. */
  ghost predicate StoresOne(st: State, st': State, k: nat, m: Meta) {
    && k < |st.slots| && m.state == st.slots[k].state && m.sequence >= st.slots[k].sequence
    && st' == st.(slots := st.slots[k := m], writer := st'.writer)
    && Storing(st.writer) && Storing(st'.writer)
    && st'.writer.sequence == st.writer.sequence && st'.writer.frame == st.writer.frame
    && st.writer.index == st'.writer.index == k
  }

  lemma StoreKeepsRest(st: State, st': State, k: nat, m: Meta)
    requires Inv(st) && StoresOne(st, st', k, m)
    ensures RestInv(st')
  {
    assert SlotAt(st, k);
    CountAfter(st.slots, k, m);
  }

  lemma StoreKeepsSlots(st: State)
    requires Inv(st) && (st.writer.StoreSequence? || st.writer.StoreQpc? || st.writer.StoreFence?)
    ensures Sized(WriterNext(st, Fails)) && SlotsOk(WriterNext(st, Fails))
    ensures StoresOne(st, WriterNext(st, Fails), st.writer.index, WriterNext(st, Fails).slots[st.writer.index])
  {
    var st' := WriterNext(st, Fails);
    forall i | 0 <= i < |st'.slots| ensures SlotAt(st', i) { assert SlotAt(st, i); }
    assert SlotAt(st, st.writer.index);
  }

  lemma StoreKeepsInv(st: State)
    requires Inv(st) && (st.writer.StoreSequence? || st.writer.StoreQpc? || st.writer.StoreFence?)
    ensures Inv(WriterNext(st, Fails))
  {
    StoreKeepsSlots(st);
    StoreKeepsRest(st, WriterNext(st, Fails), st.writer.index, WriterNext(st, Fails).slots[st.writer.index]);
  }

  lemma PublishingKeepsInv(st: State)
    requires Inv(st) && st.writer.StorePublished?
    ensures Inv(st.(slots := SetState(st.slots, st.writer.index, PUBLISHED), writer := Rest))
  {
    var k := st.writer.index;
    var st' := st.(slots := SetState(st.slots, k, PUBLISHED), writer := Rest);
    assert SlotAt(st, k);
    CountAfter(st.slots, k, st.slots[k].(state := PUBLISHED));
    forall i | 0 <= i < |st'.slots| ensures SlotAt(st', i) { assert SlotAt(st, i); }
    assert NewestAt(st', k);
  }

  lemma ResetKeepsSlots(st: State)
    requires Inv(st) && st.writer.Reset?
    ensures var st' := ResetNext(st, st.writer.k, st.writer.disabling); Sized(st') && SlotsOk(st')
  {
    var st' := ResetNext(st, st.writer.k, st.writer.disabling);
    forall i | 0 <= i < |st'.slots| ensures SlotAt(st', i) { assert SlotAt(st, i); }
  }

  lemma ResetKeepsRest(st: State)
    requires Inv(st) && st.writer.Reset?
    ensures RestInv(ResetNext(st, st.writer.k, st.writer.disabling))
  {
    var k := st.writer.k;
    if k < |st.slots| { CountAfter(st.slots, k, st.slots[k].(state := FREE)); }
  }

  lemma SetGenerationKeepsInv(st: State)
    requires Inv(st) && st.writer.SetGeneration?
    ensures Inv(WriterNext(st, Fails))
  {
    var st' := WriterNext(st, Fails);
    forall i | 0 <= i < |st'.slots| ensures SlotAt(st', i) { assert SlotAt(st, i); }
  }

  lemma WriterKeepsInv(st: State, outcome: Outcome) returns (st': State)
    requires Inv(st) && Enabled(st, WriterStep(outcome))
    ensures st' == WriterNext(st, outcome) && Inv(st')
  {
    st' := WriterNext(st, outcome);
    match st.writer {
      case Reconcile(k) => if k < |st.slots| { ReconcileKeepsInv(st); } else { ChosenKeepsInv(st); }
      case Take(_, _) => TakenSlots(st); TakenKeepsRest(st);
      case Copy(_) => CopiedSlots(st, outcome); CopiedKeepsRest(st, outcome);
      case ResetOne(_) => ResetOneKeepsInv(st);
      case StorePublished(_, _, _) => PublishingKeepsInv(st);
      case Reset(_, _) => ResetKeepsSlots(st); ResetKeepsRest(st);
      case SetGeneration => SetGenerationKeepsInv(st);
      case _ => StoreKeepsInv(st);
    }
  }

  lemma RebuildKeepsSlots(st: State, a: Action)
    requires Inv(st) && Enabled(st, a) && (a.Retire? || a.Disable? || a.WriterBegin? || a.ReaderBegin?)
    ensures Sized(Next(st, a)) && SlotsOk(Next(st, a))
  {
    var st' := Next(st, a);
    forall i | 0 <= i < |st'.slots| ensures SlotAt(st', i) { assert SlotAt(st, i); }
  }

  lemma RebuildKeepsInv(st: State, a: Action)
    requires Inv(st) && Enabled(st, a) && (a.Retire? || a.Disable? || a.WriterBegin? || a.ReaderBegin?)
    ensures Inv(Next(st, a))
  {
    RebuildKeepsSlots(st, a);
    var st' := Next(st, a);
    if j :| NewestAt(st, j) { assert NewestAt(st', j); }
  }

  lemma ReaderKeepsInv(st: State) returns (st': State)
    requires Inv(st) && Enabled(st, ReaderStep)
    ensures st' == ReaderNext(st) && Inv(st')
  {
    st' := ReaderNext(st);
    if st.reader.TryClaim? { ClaimingKeepsSlots(st); } else { LookingKeepsSlots(st); }
    if HoldsClaim(st.reader) { ReadingKeepsReader(st); } else { LookingKeepsReader(st); }
    ReaderKeepsAccount(st);
    ReaderKeepsNewest(st);
    ReaderKeepsPolicy(st);
  }

  lemma StepKeepsInv(st: State, a: Action) returns (st': State)
    requires Inv(st) && Enabled(st, a)
    ensures st' == Next(st, a) && Inv(st')
  {
    match a {
      case WriterStep(outcome) => st' := WriterKeepsInv(st, outcome);
      case ReaderStep => st' := ReaderKeepsInv(st);
      case Release => st' := Next(st, a); ReleaseKeepsInv(st);
      case _ => st' := Next(st, a); RebuildKeepsInv(st, a);
    }
  }

  lemma RunsKeepInv(states: seq<State>, actions: seq<Action>, i: nat)
    requires IsRun(states, actions) && i < |states|
    ensures Inv(states[i])
  {
    InitialInv(states[0]);
    for k := 0 to i
      invariant Inv(states[k])
    {
      assert Follows(states, actions, k);
      var st' := StepKeepsInv(states[k], actions[k]);
    }
  }
}
