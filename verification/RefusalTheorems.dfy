/** The refusal a host is told not to retry, against the record of what the OS has committed. */
module RefusalTheorems {
  import opened Prelude
  import opened Modes
  import opened ModePush
  import opened Session
  import opened SessionProofs
  import opened Dispatch
  import opened DispatchProofs
  import opened UpdateProtocol
  import opened RefusalProofs
  import opened UpdateProtocolTheorems
  import CommittedPaths
  import CommittedPathsProofs
  import CommittedPathsTheorems
  import CommittedPathsWrites

  /** Where in a run of the record the gate's read ended, on which thread, and which monitor it was about. */
  datatype Read = Read(at: nat, thread: nat, monitor: nat)

  /** The read the gate decided on: answered by step `now` of the record's run, with this answer and token. */
  predicate ReadFor(record: seq<CommittedPaths.State>, read: Read, world: World, now: nat) {
    && read.at <= now < |record| && read.thread in record[read.at].threads
    && var a := record[read.at].threads[read.thread];
       && a.Answered? && a.monitor == read.monitor
       && a.token == Some(world.token) && a.answer == world.committed
  }

  /** Every gate asked before step i decided on a read of the record. */
  ghost predicate GatesReadTheRecord(states: seq<State>, actions: seq<Action>, i: nat, record: seq<CommittedPaths.State>,
                                     looks: seq<Read>, now: nat)
    requires i <= |states| && i <= |actions| && i <= |looks|
  {
    forall j :: 0 <= j < i && AsksTheGate(states[j], actions[j]) ==> ReadFor(record, looks[j], actions[j].world, now)
  }

  /** What the record says of the monitor is this mode. */
  predicate RecordSays(c: CommittedPaths.State, monitor: nat, mode: Mode) {
    var said := CommittedPathsProofs.Lookup(CommittedPaths.Contents(c.mem.slots), monitor);
    said.Some? && Is(said.value, mode)
  }

  /** One gate's refusal is still what the record says, while its token stands and nobody is writing. */
  lemma RefusalIsStillTrue(record: seq<CommittedPaths.State>, moves: seq<CommittedPaths.Move>, now: nat, read: Read,
                           world: World, mode: Mode)
    requires CommittedPaths.IsRun(record, moves) && now < |record| && ReadFor(record, read, world, now)
    requires world.token == record[now].mem.generation && !record[now].mem.word.writing
    requires world.committed.Some? && Is(world.committed.value, mode)
    ensures RecordSays(record[now], read.monitor, mode)
  {
    CommittedPathsTheorems.TokenKeepsAnswerExact(record, moves, read.at, now, read.thread);
  }

  /** The record says so of the monitor a gate asked about for a push at this incarnation of session s. */
  ghost predicate StillCommitted(states: seq<State>, actions: seq<Action>, i: nat, s: u64, birth: nat,
                                 now: CommittedPaths.State, looks: seq<Read>, mode: Mode)
    requires i <= |states| && i <= |actions| && i <= |looks|
  {
    exists j :: 0 <= j < i && AsksTheGate(states[j], actions[j]) && states[j].queue[0].effect.sessionId == s
                && states[j].os[s].birth == birth && RecordSays(now, looks[j].monitor, mode)
  }

  /**
   What a host relies on when it does not retry. The gates having decided on reads of the record, and the
   request having come with the generation of a record nobody is writing: the mode a reply names as being in
   the way is the one the record says the OS has committed on that monitor, now and not merely when the
   push was refused.
   */
  lemma BlockedModeIsStillCommitted(states: seq<State>, actions: seq<Action>, i: nat,
                                    handshaken: bool, s: u64, specs: seq<ModeSpec>, count: u32, token: nat,
                                    record: seq<CommittedPaths.State>, moves: seq<CommittedPaths.Move>,
                                    looks: seq<Read>, now: nat)
    requires IsRun(states, actions) && i < |states| && |looks| == |actions|
    requires s in states[i].dev.table.monitors ==> states[i].dev.table.monitors[s].modes != []
    requires !AfterUpdate(states[i].dev, handshaken, s, specs, count, token).1.WorthRetrying()
    requires CommittedPaths.IsRun(record, moves) && now < |record|
    requires GatesReadTheRecord(states, actions, i, record, looks, now)
    requires token == record[now].mem.generation && !record[now].mem.word.writing
    ensures var reply := AfterUpdate(states[i].dev, handshaken, s, specs, count, token).1;
            && s in states[i].dev.table.monitors && reply.blockingModeIdx.Some?
            && reply.blockingModeIdx.value < |states[i].dev.table.monitors[s].modes|
            && s in states[i].birth
            && StillCommitted(states, actions, i, s, states[i].birth[s], record[now], looks,
                              states[i].dev.table.monitors[s].modes[reply.blockingModeIdx.value])
  {
    BlockedReplyNamesTheMode(states, actions, i, handshaken, s, specs, count, token);
    var m := states[i].dev.table.monitors[s];
    var mode := m.modes[AfterUpdate(states[i].dev, handshaken, s, specs, count, token).1.blockingModeIdx.value];
    var want := Resolves(m, specs[..count], states[i].dev.cfg.caps).value;
    var j :| 0 <= j < i && TurnsAway(states[j], actions[j], s, states[i].birth[s], want, token, mode);
    RefusalIsStillTrue(record, moves, now, looks[j], actions[j].world, mode);
  }

  /**
   And no longer: once any commit or forget that began after the gate's read has returned, written or turned
   away, a request that comes with the record's generation is never answered from the refusal. The refusal
   is gone, and the request queues a push exactly when it asks for something the monitor was created with
   and is not about to have.
   */
  lemma RefusalExpiresWithAWrite(record: seq<CommittedPaths.State>, moves: seq<CommittedPaths.Move>, read: Read,
                                 i: nat, j: nat, now: nat, writer: nat, u: CommittedPaths.Update,
                                 dev: Device, s: u64, specs: seq<ModeSpec>, count: u32)
    requires CommittedPaths.IsRun(record, moves) && read.at <= i && j <= now < |record|
    requires CommittedPathsWrites.WriteCall(record, moves, i, j, writer, u)
    requires DeviceInv(dev) && s in dev.table.monitors && dev.table.monitors[s].modes != []
    requires dev.table.monitors[s].blocked.Some?
    requires read.thread in record[read.at].threads && record[read.at].threads[read.thread].Answered?
    requires record[read.at].threads[read.thread].token == Some(dev.table.monitors[s].blocked.value.token)
    ensures var token := record[now].mem.generation;
            var (dev', reply, effects) := AfterUpdate(dev, true, s, specs, count, token);
            && reply.WorthRetrying()
            && (CountOk(count, specs) ==>
                  && s in dev'.table.monitors && dev'.table.monitors[s].blocked.None?
                  && var want := Resolves(dev.table.monitors[s], specs[..count], dev.cfg.caps);
                     (effects != [] <==>
                        want.Some? && want.value != [] && want.value != dev.table.monitors[s].TargetBase()))
  {
    CommittedPathsWrites.EarlierTokenNeverReturns(record, moves, read.at, i, j, now, writer, u, read.thread);
    if CountOk(count, specs) {
      var token := record[now].mem.generation;
      UpdateOutcome(dev.table, s, specs[..count], dev.cfg.caps, token);
      AskOutcome(WithoutStaleBlock(dev.table.monitors[s], token), specs[..count], dev.cfg.caps, dev.table.updateSeq);
    }
  }
}
