/**
 Runs that show what the theorems leave open: a rebuild between a claim and its reading can mix frames
 and need not, a lost take counts twice, and an error exit counts for nothing.
 */
module RingProtocolWitness {
  import opened Prelude
  import opened Ring
  import opened RingProtocol

  lemma Extend(states: seq<State>, actions: seq<Action>, a: Action) returns (states': seq<State>, actions': seq<Action>)
    requires IsRun(states, actions)
    requires Sized(states[|states| - 1]) && Enabled(states[|states| - 1], a)
    ensures IsRun(states', actions') && states'[|states'| - 1] == Next(states[|states| - 1], a)
  {
    states', actions' := states + [Next(states[|states| - 1], a)], actions + [a];
    forall i | 0 <= i < |actions'| ensures Follows(states', actions', i) {
      if i < |actions| { assert Follows(states, actions, i); }
    }
  }

  /** Both slots free, the writer at rest: it can publish into slot 0. */
  predicate ReadyToPublish(st: State) {
    && Sized(st) && st.writer.Rest? && !st.disabled && |st.slots| == 2
    && st.policy.slots == [Free, Free]
    && st.slots[0].state == FREE && st.slots[1].state == FREE
  }

  /** The writer chooses and takes slot 0. */
  lemma TakeSlotZero(states: seq<State>, actions: seq<Action>) returns (states': seq<State>, actions': seq<Action>)
    requires IsRun(states, actions) && ReadyToPublish(states[|states| - 1])
    ensures IsRun(states', actions')
    ensures var st, st' := states[|states| - 1], states'[|states'| - 1];
            && st' == st.(policy := st'.policy, slots := SetState(st.slots, 0, WRITING), writer := Copy(0),
                          offered := st.offered + 1)
            && st'.policy == st.policy.(slots := [Writing, Free])
  {
    var st := states[|states| - 1];
    states', actions' := Extend(states, actions, WriterBegin);
    states', actions' := Extend(states', actions', WriterStep(Fails));
    assert states'[|states'| - 1].policy.slots == [Free, Free];
    states', actions' := Extend(states', actions', WriterStep(Fails));
    assert states'[|states'| - 1] == st.(writer := Reconcile(2), offered := st.offered + 1);
    states', actions' := Extend(states', actions', WriterStep(Fails));
    assert states'[|states'| - 1].writer == Take(0, None);
    assert st.policy.slots[0 := Writing] == [Writing, Free];
    states', actions' := Extend(states', actions', WriterStep(Fails));
  }

  /** The four stores of a publish. */
  lemma StoreFrame(states: seq<State>, actions: seq<Action>) returns (states': seq<State>, actions': seq<Action>)
    requires IsRun(states, actions)
    requires var st := states[|states| - 1];
             Sized(st) && st.writer.StoreSequence? && st.slots[st.writer.index].state == WRITING
    ensures IsRun(states', actions')
    ensures var st, st' := states[|states| - 1], states'[|states'| - 1];
            var w := st.writer;
            st' == st.(slots := st.slots[w.index := Meta(PUBLISHED, w.sequence, w.frame.presentQpc, w.frame.fence)],
                       writer := Rest)
  {
    var st := states[|states| - 1];
    var w := st.writer;
    states', actions' := Extend(states, actions, WriterStep(Fails));
    states', actions' := Extend(states', actions', WriterStep(Fails));
    states', actions' := Extend(states', actions', WriterStep(Fails));
    assert states'[|states'| - 1].slots ==
           st.slots[w.index := Meta(WRITING, w.sequence, w.frame.presentQpc, w.frame.fence)];
    states', actions' := Extend(states', actions', WriterStep(Fails));
  }

  lemma PublishSlotZero(states: seq<State>, actions: seq<Action>, qpc: nat)
    returns (states': seq<State>, actions': seq<Action>)
    requires IsRun(states, actions) && ReadyToPublish(states[|states| - 1])
    ensures IsRun(states', actions')
    ensures var st, st' := states[|states| - 1], states'[|states'| - 1];
            var n := st.policy.nextSequence;
            && st' == st.(policy := st'.policy, slots := [Meta(PUBLISHED, n, qpc, n), st.slots[1]],
                          log := st.log + [Frame(qpc, n)], offered := st.offered + 1)
            && st'.policy == st.policy.(slots := [Published(n), Free], nextSequence := n + 1,
                                        framesPublished := st.policy.framesPublished + 1)
  {
    var st := states[|states| - 1];
    var n := st.policy.nextSequence;
    states', actions' := TakeSlotZero(states, actions);
    states', actions' := Extend(states', actions', WriterStep(Completes(qpc, true)));
    assert states'[|states'| - 1].writer == StoreSequence(0, n, Frame(qpc, n));
    assert states'[|states'| - 1].policy.slots == [Published(n), Free];
    states', actions' := StoreFrame(states', actions');
    assert states'[|states'| - 1].slots == [Meta(PUBLISHED, n, qpc, n), st.slots[1]];
  }

  /** The reader scans, claims slot 0 and reads its sequence. */
  lemma ClaimSlotZero(states: seq<State>, actions: seq<Action>) returns (states': seq<State>, actions': seq<Action>)
    requires IsRun(states, actions)
    requires var st := states[|states| - 1];
             Sized(st) && |st.slots| == 2 && st.reader.Away? && st.writer.Rest?
             && st.slots[0].state == PUBLISHED && st.slots[1].state == FREE
    ensures IsRun(states', actions')
    ensures var st, st' := states[|states| - 1], states'[|states'| - 1];
            && st' == st.(slots := SetState(st.slots, 0, READING), reader := st'.reader,
                          claimed := st'.claimed, lastClaimed := st'.lastClaimed)
            && st'.reader.ReadQpc? && st'.reader.c.index == 0 && st'.reader.c.sequence == st.slots[0].sequence
            && st'.reader.c.tookAt == st.generation
  {
    states', actions' := Extend(states, actions, ReaderBegin);
    states', actions' := Extend(states', actions', ReaderStep);
    states', actions' := Extend(states', actions', ReaderStep);
    states', actions' := Extend(states', actions', ReaderStep);
    states', actions' := Extend(states', actions', ReaderStep);
    assert states'[|states'| - 1].reader.TryClaim?;
    states', actions' := Extend(states', actions', ReaderStep);
    states', actions' := Extend(states', actions', ReaderStep);
  }

  lemma RebuildTwoSlots(states: seq<State>, actions: seq<Action>) returns (states': seq<State>, actions': seq<Action>)
    requires IsRun(states, actions)
    requires var st := states[|states| - 1]; Sized(st) && |st.slots| == 2 && st.writer.Rest? && !st.disabled
    ensures IsRun(states', actions')
    ensures var st, st' := states[|states| - 1], states'[|states'| - 1];
            && ReadyToPublish(st') && st'.reader == st.reader && st'.log == st.log
            && st'.policy.nextSequence == st.policy.nextSequence && st'.generation == st.policy.generation + 1
            && st'.slots == [st.slots[0].(state := FREE), st.slots[1].(state := FREE)]
  {
    states', actions' := Extend(states, actions, Retire);
    states', actions' := Extend(states', actions', WriterStep(Fails));
    states', actions' := Extend(states', actions', WriterStep(Fails));
    states', actions' := Extend(states', actions', WriterStep(Fails));
    states', actions' := Extend(states', actions', WriterStep(Fails));
    assert states'[|states'| - 1].policy.slots == [Free, Free];
  }

  /** Two slots, nothing published. */
  function Start(): State {
    var empty := Meta(FREE, 0, 0, 0);
    State(NewPolicy(2), [empty, empty], 1, Rest, Away, false, 0, [], 0, 0, 0, 0, 0, 0, 0, 0, 0, true, 0)
  }

  lemma StartIsInitial()
    ensures Initial(Start()) && ReadyToPublish(Start())
  {
    assert NewPolicy(2).slots == [Free, Free];
  }

  /** Frame 1 is published, claimed under generation 1, and a rebuild runs before it is read. */
  lemma ClaimThenRebuild() returns (states: seq<State>, actions: seq<Action>)
    ensures IsRun(states, actions)
    ensures var st := states[|states| - 1];
            && ReadyToPublish(st) && st.log == [Frame(10, 1)] && st.policy.nextSequence == 2 && st.generation == 2
            && st.reader.ReadQpc? && st.reader.c.index == 0 && st.reader.c.sequence == 1 && st.reader.c.tookAt == 1
            && st.slots[0].presentQpc == 10 && st.slots[0].fence == 1
  {
    StartIsInitial();
    states, actions := [Start()], [];
    states, actions := PublishSlotZero(states, actions, 10);
    states, actions := ClaimSlotZero(states, actions);
    states, actions := RebuildTwoSlots(states, actions);
  }

  /** A run in which the reader, having claimed frame 1, ends up with its sequence and frame 2's timestamp;
      the generation it reads last is not the one it claimed under. */
  lemma RebuildCanMixFrames() returns (states: seq<State>, actions: seq<Action>)
    ensures IsRun(states, actions)
    ensures var st := states[|states| - 1];
            && st.reader.Holding? && st.log == [Frame(10, 1), Frame(20, 2)]
            && st.reader.c.tookAt == 1 && st.reader.c.generation == 2
            && st.reader.c.sequence == 1 && Frame(st.reader.c.presentQpc, st.reader.c.fence) == st.log[1]
  {
    states, actions := ClaimThenRebuild();
    states, actions := PublishSlotZero(states, actions, 20);
    states, actions := Extend(states, actions, ReaderStep);
    states, actions := Extend(states, actions, ReaderStep);
    states, actions := Extend(states, actions, ReaderStep);
  }

  /** And one with the same generations in which the claim comes out whole, so a generation that moved
      settles nothing either way. */
  lemma RebuildCanSpareTheClaim() returns (states: seq<State>, actions: seq<Action>)
    ensures IsRun(states, actions)
    ensures var st := states[|states| - 1];
            && st.reader.Holding? && st.log == [Frame(10, 1)]
            && st.reader.c.tookAt == 1 && st.reader.c.generation == 2
            && st.reader.c.sequence == 1 && Frame(st.reader.c.presentQpc, st.reader.c.fence) == st.log[0]
  {
    states, actions := ClaimThenRebuild();
    states, actions := Extend(states, actions, ReaderStep);
    states, actions := Extend(states, actions, ReaderStep);
    states, actions := Extend(states, actions, ReaderStep);
  }

  // ----- what the counters do not say -----

  /** The reader scans with frame 1 in slot 0 and nothing else published, and stops short of its claim. */
  lemma ScanSlotZero(states: seq<State>, actions: seq<Action>) returns (states': seq<State>, actions': seq<Action>)
    requires IsRun(states, actions)
    requires var st := states[|states| - 1];
             Sized(st) && |st.slots| == 2 && st.reader.Away?
             && st.slots[0].state == PUBLISHED && st.slots[1].state == FREE
    ensures IsRun(states', actions')
    ensures var st, st' := states[|states| - 1], states'[|states'| - 1];
            st' == st.(reader := TryClaim(0, Best(0, st.slots[0].sequence)))
  {
    states', actions' := Extend(states, actions, ReaderBegin);
    states', actions' := Extend(states', actions', ReaderStep);
    states', actions' := Extend(states', actions', ReaderStep);
    states', actions' := Extend(states', actions', ReaderStep);
    states', actions' := Extend(states', actions', ReaderStep);
  }

  /** The writer publishes frame 2 into slot 1. */
  lemma PublishSlotOne(states: seq<State>, actions: seq<Action>) returns (states': seq<State>, actions': seq<Action>)
    requires IsRun(states, actions)
    requires var st := states[|states| - 1];
             Sized(st) && st.writer.Rest? && !st.disabled && st.policy.slots == [Published(1), Free]
             && st.slots == [Meta(PUBLISHED, 1, 10, 1), Meta(FREE, 0, 0, 0)] && st.policy.nextSequence == 2
    ensures IsRun(states', actions')
    ensures var st, st' := states[|states| - 1], states'[|states'| - 1];
            && st' == st.(policy := st'.policy, slots := [st.slots[0], Meta(PUBLISHED, 2, 20, 2)],
                          log := st.log + [Frame(20, 2)], offered := st.offered + 1)
            && st'.policy == st.policy.(slots := [Published(1), Published(2)], nextSequence := 3,
                                        framesPublished := st.policy.framesPublished + 1)
  {
    var st := states[|states| - 1];
    states', actions' := Extend(states, actions, WriterBegin);
    states', actions' := Extend(states', actions', WriterStep(Fails));
    assert states'[|states'| - 1].policy.slots == [Published(1), Free];
    states', actions' := Extend(states', actions', WriterStep(Fails));
    assert states'[|states'| - 1].policy.slots == [Published(1), Free];
    states', actions' := Extend(states', actions', WriterStep(Fails));
    assert states'[|states'| - 1].writer == Take(1, None);
    states', actions' := Extend(states', actions', WriterStep(Fails));
    states', actions' := Extend(states', actions', WriterStep(Completes(20, true)));
    assert states'[|states'| - 1].policy.slots == [Published(1), Published(2)];
    states', actions' := StoreFrame(states', actions');
    assert states'[|states'| - 1].slots == [st.slots[0], Meta(PUBLISHED, 2, 20, 2)];
  }

  /** With both slots published the writer goes for the older one. */
  lemma GoForSlotZero(states: seq<State>, actions: seq<Action>) returns (states': seq<State>, actions': seq<Action>)
    requires IsRun(states, actions)
    requires var st := states[|states| - 1];
             Sized(st) && st.writer.Rest? && !st.disabled && st.policy.slots == [Published(1), Published(2)]
             && st.slots == [Meta(PUBLISHED, 1, 10, 1), Meta(PUBLISHED, 2, 20, 2)]
    ensures IsRun(states', actions')
    ensures var st, st' := states[|states| - 1], states'[|states'| - 1];
            && st' == st.(policy := st'.policy, writer := Take(0, Some(1)), offered := st.offered + 1)
            && st'.policy == st.policy.(slots := [Writing, Published(2)],
                                        framesDropped := st.policy.framesDropped + 1)
  {
    var st := states[|states| - 1];
    states', actions' := Extend(states, actions, WriterBegin);
    states', actions' := Extend(states', actions', WriterStep(Fails));
    assert states'[|states'| - 1].policy.slots == [Published(1), Published(2)];
    states', actions' := Extend(states', actions', WriterStep(Fails));
    assert states'[|states'| - 1].policy.slots == [Published(1), Published(2)];
    states', actions' := Extend(states', actions', WriterStep(Fails));
    assert states'[|states'| - 1].policy.slots == [Writing, Published(2)];
  }

  /** A run with one lost take: three frames offered, the first claimed, the second still to be claimed,
      the third dropped. One frame was lost and frames_dropped says two. */
  lemma LostTakeCountsTwice() returns (states: seq<State>, actions: seq<Action>)
    ensures IsRun(states, actions)
    ensures var st := states[|states| - 1];
            && st.writer.Rest? && st.lost == 1 && st.policy.framesDropped == 2
            && st.offered == 3 && st.policy.framesPublished == 2
            && |st.slots| == 2 && st.claimed == 1 && st.slots[0].state == READING && st.slots[1].state == PUBLISHED
  {
    StartIsInitial();
    states, actions := [Start()], [];
    states, actions := PublishSlotZero(states, actions, 10);
    states, actions := ScanSlotZero(states, actions);
    states, actions := PublishSlotOne(states, actions);
    states, actions := GoForSlotZero(states, actions);
    states, actions := Extend(states, actions, ReaderStep);
    states, actions := Extend(states, actions, WriterStep(Fails));
  }

  /** A run in which a frame is given up on an error exit: neither counter has heard of it. */
  lemma ErrorExitIsNotCounted() returns (states: seq<State>, actions: seq<Action>)
    ensures IsRun(states, actions)
    ensures var st := states[|states| - 1];
            && st.writer.Stuck? && st.offered == 1 && st.exited == 1
            && st.policy.framesPublished == 0 && st.policy.framesDropped == 0
  {
    StartIsInitial();
    states, actions := [Start()], [];
    states, actions := TakeSlotZero(states, actions);
    states, actions := Extend(states, actions, WriterStep(Exits));
  }
}
