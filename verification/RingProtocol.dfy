/**
 The two-party ring as a machine of atomic steps: one writer that never waits, one reader that claims
 the newest frame.

 Every load, store and compare-exchange on the shared section is one step. The writer's policy is
 private to it. The reader holds at most one frame at a time and works down the slots one word at a
 time. Pixels, and the timestamps, are opaque. Fields below `disabled` are history variables.
 */
module RingProtocol {
  import opened Prelude
  import opened Ring

  /** What one publish put into its slot. */
  datatype Frame = Frame(presentQpc: nat, fence: nat)

  datatype Writer =
    | Rest
    | Reconcile(k: nat)
    | Take(index: nat, overwrote: Option<nat>)
    | Copy(index: nat)
    | ResetOne(index: nat)
    | Stuck(index: nat)                       // left by an error exit with the slot still WRITING
    | StoreSequence(index: nat, sequence: nat, frame: Frame)
    | StoreQpc(index: nat, sequence: nat, frame: Frame)
    | StoreFence(index: nat, sequence: nat, frame: Frame)
    | StorePublished(index: nat, sequence: nat, frame: Frame)
    | Reset(k: nat, disabling: bool)
    | SetGeneration

  datatype Best = Best(index: nat, sequence: nat)

  /** A claim under construction. History: the sequence scanned, and the epoch and the header's generation
      at the compare-exchange. */
  datatype Claim = Claim(
    index: nat, scanned: nat, epoch: nat, tookAt: nat,
    sequence: nat, presentQpc: nat, fence: nat, generation: nat)

  datatype Reader =
    | Away
    | LookState(tries: nat, k: nat, best: Option<Best>)
    | LookSequence(tries: nat, k: nat, best: Option<Best>)
    | TryClaim(tries: nat, candidate: Best)
    | ReadSequence(c: Claim)
    | ReadQpc(c: Claim)
    | ReadFence(c: Claim)
    | ReadGeneration(c: Claim)
    | Holding(c: Claim)

  datatype State = State(
    policy: Policy, slots: seq<Meta>, generation: nat, writer: Writer, reader: Reader, disabled: bool,
    // history
    epoch: nat,             // even between rebuilds, odd during one
    log: seq<Frame>,        // frame k + 1 is log[k]
    offered: nat,           // frames the writer set out to publish
    claimed: nat, overwritten: nat, cleared: nat, refused: nat, aborted: nat, lost: nat, exited: nat,
    base: nat,              // frames published before the last rebuild
    clean: bool,            // every successful take since then ended in a publish
    lastClaimed: nat)       // the largest sequence claimed

  /** How a copy into a taken slot ends. */
  datatype Outcome = Fails | Exits | Completes(presentQpc: nat, fenced: bool)

  datatype Action =
    | WriterBegin | WriterStep(outcome: Outcome) | Retire | Disable
    | ReaderBegin | ReaderStep | Release

  predicate HoldsClaim(r: Reader) {
    r.ReadSequence? || r.ReadQpc? || r.ReadFence? || r.ReadGeneration? || r.Holding?
  }

  predicate Holds(r: Reader, i: nat) { HoldsClaim(r) && r.c.index == i }

  function SetState(slots: seq<Meta>, i: nat, state: u32): seq<Meta>
    requires i < |slots|
  {
    slots[i := slots[i].(state := state)]
  }

  predicate WriterSized(w: Writer, n: nat) {
    match w
    case Rest => true
    case Reconcile(k) => k <= n
    case Reset(k, _) => k <= n
    case SetGeneration => true
    case _ => w.index < n
  }

  predicate ReaderSized(r: Reader, n: nat) {
    match r
    case Away => true
    case LookState(_, k, best) => k <= n && (best.Some? ==> best.value.index < n)
    case LookSequence(_, k, best) => k < n && (best.Some? ==> best.value.index < n)
    case TryClaim(_, candidate) => candidate.index < n
    case _ => r.c.index < n
  }

  predicate Sized(st: State) {
    && 2 <= |st.slots| == |st.policy.slots|
    && WriterSized(st.writer, |st.slots|)
    && ReaderSized(st.reader, |st.slots|)
  }

  predicate Enabled(st: State, a: Action) {
    match a
    case WriterBegin => st.writer.Rest? && !st.disabled
    case WriterStep(_) => !st.writer.Rest? && !st.writer.Stuck?
    case Retire => st.writer.Rest? || st.writer.Stuck?
    case Disable => (st.writer.Rest? || st.writer.Stuck?) && !st.disabled
    case ReaderBegin => st.reader.Away?
    case ReaderStep => !st.reader.Away? && !st.reader.Holding?
    case Release => st.reader.Holding?
  }

  /** The writer's choice, made on the states it has just seen. */
  function Chosen(st: State): State {
    var (p, r) := Acquired(st.policy);
    match r
    case None => st.(policy := p, writer := Rest, refused := st.refused + 1)
    case Some(slot) => st.(policy := p, writer := Take(slot.index, slot.overwrote))
  }

  /** The take: expected -> WRITING on the shared state; lost if the reader got there first. */
  function TakenOrLost(st: State, i: nat, overwrote: Option<nat>): State
    requires i < |st.slots| == |st.policy.slots|
  {
    var expected := if overwrote.Some? then PUBLISHED else FREE;
    if st.slots[i].state == expected then
      st.(slots := SetState(st.slots, i, WRITING), writer := Copy(i),
          overwritten := if overwrote.Some? then st.overwritten + 1 else st.overwritten)
    else st.(policy := Aborted(st.policy, i), writer := Rest, lost := st.lost + 1)
  }

  function Copied(st: State, i: nat, outcome: Outcome): State
    requires i < |st.policy.slots|
  {
    match outcome
    case Fails => st.(policy := Aborted(st.policy, i), writer := ResetOne(i), aborted := st.aborted + 1, clean := false)
    case Exits => st.(writer := Stuck(i), exited := st.exited + 1)
    case Completes(qpc, fenced) =>
      var sequence := st.policy.nextSequence;
      var frame := Frame(qpc, if fenced then sequence else 0);
      st.(policy := PublishedAt(st.policy, i), writer := StoreSequence(i, sequence, frame), log := st.log + [frame])
  }

  function ResetNext(st: State, k: nat, disabling: bool): State
    requires k <= |st.slots|
  {
    if k == |st.slots| then
      if disabling then st.(writer := Rest, epoch := st.epoch + 1) else st.(writer := SetGeneration)
    else
      st.(slots := SetState(st.slots, k, FREE), writer := Reset(k + 1, disabling),
          cleared := if st.slots[k].state == PUBLISHED then st.cleared + 1 else st.cleared)
  }

  function WriterNext(st: State, outcome: Outcome): State
    requires Sized(st) && Enabled(st, WriterStep(outcome))
  {
    match st.writer
    case Reconcile(k) =>
      if k < |st.slots| then
        st.(policy := Reconciled(st.policy, k, st.slots[k].state), writer := Reconcile(k + 1))
      else Chosen(st)
    case Take(i, overwrote) => TakenOrLost(st, i, overwrote)
    case Copy(i) => Copied(st, i, outcome)
    case ResetOne(i) => st.(slots := SetState(st.slots, i, FREE), writer := Rest)
    case StoreSequence(i, s, f) =>
      st.(slots := st.slots[i := st.slots[i].(sequence := s)], writer := StoreQpc(i, s, f))
    case StoreQpc(i, s, f) =>
      st.(slots := st.slots[i := st.slots[i].(presentQpc := f.presentQpc)], writer := StoreFence(i, s, f))
    case StoreFence(i, s, f) =>
      st.(slots := st.slots[i := st.slots[i].(fence := f.fence)], writer := StorePublished(i, s, f))
    case StorePublished(i, s, f) => st.(slots := SetState(st.slots, i, PUBLISHED), writer := Rest)
    case Reset(k, disabling) => ResetNext(st, k, disabling)
    case SetGeneration =>
      st.(generation := st.policy.generation, writer := Rest, epoch := st.epoch + 1,
          base := |st.log|, clean := true)
  }

  /** An empty scan, or too many lost races, gives up. */
  function Scanned(st: State, tries: nat, best: Option<Best>): Reader {
    if best.Some? then TryClaim(tries, best.value) else Away
  }

  function ReaderNext(st: State): State
    requires Sized(st) && Enabled(st, ReaderStep)
  {
    match st.reader
    case LookState(tries, k, best) =>
      if k == |st.slots| then st.(reader := Scanned(st, tries, best))
      else if st.slots[k].state == PUBLISHED then st.(reader := LookSequence(tries, k, best))
      else st.(reader := LookState(tries, k + 1, best))
    case LookSequence(tries, k, best) =>
      var s := st.slots[k].sequence;
      var best' := if best.None? || best.value.sequence < s then Some(Best(k, s)) else best;
      st.(reader := LookState(tries, k + 1, best'))
    case TryClaim(tries, candidate) =>
      var i := candidate.index;
      if st.slots[i].state == PUBLISHED then
        st.(slots := SetState(st.slots, i, READING),
            reader := ReadSequence(Claim(i, candidate.sequence, st.epoch, st.generation, 0, 0, 0, 0)),
            claimed := st.claimed + 1,
            lastClaimed := if st.lastClaimed < st.slots[i].sequence then st.slots[i].sequence else st.lastClaimed)
      else st.(reader := if tries < |st.slots| then LookState(tries + 1, 0, None) else Away)
    case ReadSequence(c) => st.(reader := ReadQpc(c.(sequence := st.slots[c.index].sequence)))
    case ReadQpc(c) => st.(reader := ReadFence(c.(presentQpc := st.slots[c.index].presentQpc)))
    case ReadFence(c) => st.(reader := ReadGeneration(c.(fence := st.slots[c.index].fence)))
    case ReadGeneration(c) => st.(reader := Holding(c.(generation := st.generation)))
  }

  function Next(st: State, a: Action): State
    requires Sized(st) && Enabled(st, a)
  {
    match a
    case WriterBegin => st.(writer := Reconcile(0), offered := st.offered + 1)
    case WriterStep(outcome) => WriterNext(st, outcome)
    case Retire => st.(policy := Rebuilt(st.policy), writer := Reset(0, false), epoch := st.epoch + 1)
    case Disable => st.(writer := Reset(0, true), disabled := true, epoch := st.epoch + 1)
    case ReaderBegin => st.(reader := LookState(0, 0, None))
    case ReaderStep => ReaderNext(st)
    case Release =>
      var i := st.reader.c.index;
      st.(slots := if st.slots[i].state == READING then SetState(st.slots, i, FREE) else st.slots, reader := Away)
  }

  ghost predicate Initial(st: State) {
    && 2 <= |st.slots| <= ABI_MAX_RING_SLOTS
    && st.policy == NewPolicy(|st.slots|)
    && (forall i :: 0 <= i < |st.slots| ==> st.slots[i] == Meta(FREE, 0, 0, 0))
    && st.generation == 1 && st.writer.Rest? && st.reader.Away? && !st.disabled
    && st.epoch == 0 && st.log == [] && st.offered == 0
    && st.claimed == 0 && st.overwritten == 0 && st.cleared == 0
    && st.refused == 0 && st.aborted == 0 && st.lost == 0 && st.exited == 0
    && st.base == 0 && st.clean && st.lastClaimed == 0
  }

  ghost predicate Follows(states: seq<State>, actions: seq<Action>, i: nat)
    requires i < |actions| && |states| == |actions| + 1
  {
    Sized(states[i]) && Enabled(states[i], actions[i]) && states[i + 1] == Next(states[i], actions[i])
  }

  ghost predicate IsRun(states: seq<State>, actions: seq<Action>) {
    && |states| == |actions| + 1
    && Initial(states[0])
    && forall i :: 0 <= i < |actions| ==> Follows(states, actions, i)
  }
}
