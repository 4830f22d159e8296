/** What holds in every reachable state of the update protocol. */
module UpdateProtocolTheorems {
  import opened Prelude
  import opened Modes
  import opened ModePush
  import opened Session
  import opened SessionProofs
  import opened Dispatch
  import opened DispatchProofs
  import opened PoolProofs
  import opened RestartProofs
  import opened UpdateProtocol
  import opened UpdateProtocolProofs
  import opened RefusalProofs

  // ----- the durable list and the list the OS holds -----

  /** Outside the gap between a push and its settle, the table's list of a monitor with no plug or
      unplug on its way is the list the shell and the OS hold, and its create-time list theirs. */
  lemma DurableListIsTheOsList(states: seq<State>, actions: seq<Action>, i: nat, s: u64)
    requires IsRun(states, actions) && i < |states|
    requires !Touches(states[i].queue, s) && !BusyWith(states[i].worker, s)
    ensures s in states[i].dev.table.monitors <==> s in states[i].os
    ensures s in states[i].os ==>
              states[i].os[s].shown ==
              Shown(states[i].dev.table.monitors[s].modes, states[i].dev.table.monitors[s].targetModes)
  {
    RunsKeepInv(states, actions, i);
    SettledListIsHeld(states[i], s);
  }

  lemma SettledListIsHeld(st: State, s: u64)
    requires QueueInv(st) && !Touches(st.queue, s) && !BusyWith(st.worker, s)
    ensures s in st.dev.table.monitors <==> s in st.os
    ensures s in st.os ==>
              st.os[s].shown == Shown(st.dev.table.monitors[s].modes, st.dev.table.monitors[s].targetModes)
  {
    if !st.worker.Idle? { BusyHead(st); }
    UntouchedStays(Seen(st), st.queue, s);
    assert s in Listed(st) <==> s in st.dev.table.monitors;
    assert s in Seen(st) <==> s in st.os;
  }

  /** Inside the gap the OS already holds what the settle is about to record. */
  lemma SettleClosesTheGap(states: seq<State>, actions: seq<Action>, i: nat)
    requires IsRun(states, actions) && i < |states| && states[i].worker.Reporting?
    requires !Touches(states[i].queue, states[i].worker.s)
    ensures var w := states[i].worker;
            var t := SettledNow(states[i]).dev.table;
            && w.s in t.monitors && w.s in states[i].os
            && t.monitors[w.s].targetModes == states[i].os[w.s].shown.targets
            && (w.result.Applied? ==> t.monitors[w.s].targetModes == w.targets)
  {
    RunsKeepInv(states, actions, i);
    var st := states[i];
    SettleStepKeepsInv(st);
    SettledListIsHeld(SettledNow(st), st.worker.s);
  }

  /** A plug still in the queue carries the table's lists, the last one for its session. */
  lemma {:induction false} QueuedPlugCarries(v: map<u64, Known>, q: seq<Task>, s: u64) returns (i: nat)
    requires Touches(q, s) && s in AfterTasks(v, q)
    ensures i < |q| && q[i].effect.PlugMonitor? && q[i].effect.sessionId == s && !Touches(q[i + 1..], s)
    ensures AfterTasks(v, q)[s].shown == Shown(q[i].effect.modes, q[i].effect.targets)
    decreases |q|
  {
    if Touches(q[1..], s) {
      i := QueuedPlugCarries(AfterTask(v, q[0]), q[1..], s);
      i := i + 1;
      assert q[1..][i..] == q[i + 1..];
    } else {
      UntouchedStays(AfterTask(v, q[0]), q[1..], s);
      i := 0;
    }
  }

  // ----- what a reply promises -----

  /** The list in force is exactly what was asked for, entry by entry. */
  ghost predicate AskedAndInForce(m: Monitor, specs: seq<ModeSpec>, caps: Caps)
    requires m.modes != []
  {
    Session.Requested(m, specs, caps) == Ok(m.targetModes)
  }

  lemma InForceReply(m: Monitor, specs: seq<ModeSpec>, caps: Caps, updateSeq: nat)
    requires ListsOk(m, updateSeq)
    ensures var (m', r) := Asked(m, specs, caps, updateSeq + 1);
            r.Ok? && UpdateReply(r.value, |specs|).FullyInForce() ==>
              && m' == m && m.pendingTargets.None? && AskedAndInForce(m, specs, caps)
  {
    AskOutcome(m, specs, caps, updateSeq);
    var requested := Session.Requested(m, specs, caps);
    if requested.Ok? {
      SelectionMeaning(m.modes, requested.value);
      ValidListExactly(specs, |specs|, m.modes[0].bitDepth.AsRaw(), if m.modes[0].hdr then 1 else 0, caps);
    }
  }

  /** What the reply to one UPDATE_MODES can be, in terms of the table before it. */
  lemma FullyInForceReply(dev: Device, handshaken: bool, s: u64, specs: seq<ModeSpec>, count: u32, token: nat)
    requires DeviceInv(dev) && (s in dev.table.monitors ==> dev.table.monitors[s].modes != [])
    requires AfterUpdate(dev, handshaken, s, specs, count, token).1.FullyInForce()
    ensures s in dev.table.monitors && dev.table.monitors[s].pendingTargets.None?
    ensures count <= |specs| && AskedAndInForce(dev.table.monitors[s], specs[..count], dev.cfg.caps)
  {
    if s in dev.table.monitors {
      ListsOkOf(dev.table, s, token);
      if count <= |specs| {
        InForceReply(WithoutStaleBlock(dev.table.monitors[s], token), specs[..count], dev.cfg.caps, dev.table.updateSeq);
      }
    }
  }

  /**
   A reply that says "fully in force" tells the truth: the list asked for is the table's list, no push
   at this monitor is under way, and the OS holds exactly that list; or else the monitor's plug is
   still queued, and carries exactly that list.
   */
  lemma FullyInForceIsInForce(states: seq<State>, actions: seq<Action>, i: nat,
                              handshaken: bool, s: u64, specs: seq<ModeSpec>, count: u32, token: nat)
    requires IsRun(states, actions) && i < |states|
    requires s in states[i].dev.table.monitors ==> states[i].dev.table.monitors[s].modes != []
    requires AfterUpdate(states[i].dev, handshaken, s, specs, count, token).1.FullyInForce()
    ensures var st := states[i];
            && s in st.dev.table.monitors && count <= |specs|
            && AskedAndInForce(st.dev.table.monitors[s], specs[..count], st.dev.cfg.caps)
            && var held := Shown(st.dev.table.monitors[s].modes, st.dev.table.monitors[s].targetModes);
               && (!Touches(st.queue, s) ==> !BusyWith(st.worker, s) && s in st.os && st.os[s].shown == held)
               && (Touches(st.queue, s) ==> exists k ::
                     && 0 <= k < |st.queue| && st.queue[k].effect.PlugMonitor? && st.queue[k].effect.sessionId == s
                     && !Touches(st.queue[k + 1..], s)
                     && Shown(st.queue[k].effect.modes, st.queue[k].effect.targets) == held)
  {
    RunsKeepInv(states, actions, i);
    var st := states[i];
    FullyInForceReply(st.dev, handshaken, s, specs, count, token);
    WhereTheListIs(st, s);
  }

  lemma WhereTheListIs(st: State, s: u64)
    requires QueueInv(st) && MonitorsInv(st)
    requires s in st.dev.table.monitors && st.dev.table.monitors[s].pendingTargets.None?
    ensures var held := Shown(st.dev.table.monitors[s].modes, st.dev.table.monitors[s].targetModes);
            && (!Touches(st.queue, s) ==> !BusyWith(st.worker, s) && s in st.os && st.os[s].shown == held)
            && (Touches(st.queue, s) ==> exists k ::
                  && 0 <= k < |st.queue| && st.queue[k].effect.PlugMonitor? && st.queue[k].effect.sessionId == s
                  && !Touches(st.queue[k + 1..], s)
                  && Shown(st.queue[k].effect.modes, st.queue[k].effect.targets) == held)
  {
    assert Listed(st)[s].shown == Shown(st.dev.table.monitors[s].modes, st.dev.table.monitors[s].targetModes);
    if Touches(st.queue, s) {
      if !st.worker.Idle? { BusyHead(st); }
      var k := QueuedPlugCarries(Seen(st), st.queue, s);
    } else {
      if BusyWith(st.worker, s) {
        UntouchedListens(st);
        assert IsPush(Jobs(st)[0], s);
        assert false;
      }
      SettledListIsHeld(st, s);
    }
  }

  /** A refusal a host is told not to retry queues nothing, changes nothing it could push, and names a
      create-time mode that the request leaves out and that the OS had committed when the gate, under the
      token the request came with, turned this very list away. */
  lemma BlockedReplyNamesTheMode(states: seq<State>, actions: seq<Action>, i: nat,
                                 handshaken: bool, s: u64, specs: seq<ModeSpec>, count: u32, token: nat)
    requires IsRun(states, actions) && i < |states|
    requires s in states[i].dev.table.monitors ==> states[i].dev.table.monitors[s].modes != []
    requires !AfterUpdate(states[i].dev, handshaken, s, specs, count, token).1.WorthRetrying()
    ensures var st := states[i];
            var (dev', reply, effects) := AfterUpdate(st.dev, handshaken, s, specs, count, token);
            && effects == [] && dev' == st.dev && reply.result == MODE_COMMITTED
            && s in st.dev.table.monitors && count <= |specs|
            && reply.blockingModeIdx.Some?
            && var m := st.dev.table.monitors[s];
               && reply.blockingModeIdx.value < |m.modes|
               && Resolves(m, specs[..count], st.dev.cfg.caps).Some?
               && m.modes[reply.blockingModeIdx.value] !in Resolves(m, specs[..count], st.dev.cfg.caps).value
               && s in st.birth
               && TurnedAway(states, actions, i, s, st.birth[s], Resolves(m, specs[..count], st.dev.cfg.caps).value,
                             token, m.modes[reply.blockingModeIdx.value])
  {
    BlockedReplyOf(states, actions, i, handshaken, s, specs, count, token);
    assert RefusalEvidenced(states, actions, i, s) by {
      RunsStayEvidenced(states, actions, i);
      assert Refuses(states[i].dev.table, s);
    }
  }

  lemma BlockedReplyOf(states: seq<State>, actions: seq<Action>, i: nat,
                       handshaken: bool, s: u64, specs: seq<ModeSpec>, count: u32, token: nat)
    requires IsRun(states, actions) && i < |states|
    requires s in states[i].dev.table.monitors ==> states[i].dev.table.monitors[s].modes != []
    requires !AfterUpdate(states[i].dev, handshaken, s, specs, count, token).1.WorthRetrying()
    ensures BlockedFromMemory(states[i].dev, handshaken, s, specs, count, token)
  {
    RunsKeepInv(states, actions, i);
    BlockedReply(states[i].dev, handshaken, s, specs, count, token);
  }

  /** The answer is the refusal remembered under this token, of this list, for a mode the list leaves out. */
  ghost predicate BlockedFromMemory(dev: Device, handshaken: bool, s: u64, specs: seq<ModeSpec>, count: u32, token: nat)
    requires s in dev.table.monitors ==> dev.table.monitors[s].modes != []
  {
    var (dev', reply, effects) := AfterUpdate(dev, handshaken, s, specs, count, token);
    && effects == [] && dev' == dev && reply.result == MODE_COMMITTED
    && s in dev.table.monitors && count <= |specs|
    && var m := dev.table.monitors[s];
       && m.blocked.Some? && m.blocked.value.token == token
       && reply.blockingModeIdx == Some(m.blocked.value.supersetIdx)
       && Resolves(m, specs[..count], dev.cfg.caps) == Some(m.blocked.value.targets)
       && m.blocked.value.supersetIdx < |m.modes|
       && m.modes[m.blocked.value.supersetIdx] !in m.blocked.value.targets
  }

  lemma BlockedReply(dev: Device, handshaken: bool, s: u64, specs: seq<ModeSpec>, count: u32, token: nat)
    requires DeviceInv(dev)
    requires s in dev.table.monitors ==> dev.table.monitors[s].modes != [] && RefusalOk(dev.table.monitors[s])
    requires !AfterUpdate(dev, handshaken, s, specs, count, token).1.WorthRetrying()
    ensures BlockedFromMemory(dev, handshaken, s, specs, count, token)
  {
    if s in dev.table.monitors && handshaken && CountOk(count, specs) {
      BlockedAnswer(dev.table, s, specs[..count], dev.cfg.caps, token);
    }
  }

  /** The table answers a blocked request from the refusal it remembers and stays as it is. */
  lemma BlockedAnswer(t: Table, s: u64, specs: seq<ModeSpec>, caps: Caps, token: nat)
    requires MonitorsOk(t) && s in t.monitors && t.monitors[s].modes != []
    requires var r := Updated(t, s, specs, caps, token).1; r.Ok? && r.value.blocked.Some?
    ensures var (t', r) := Updated(t, s, specs, caps, token);
            var m := t.monitors[s];
            && t' == t && r.value.queued.None? && !r.value.refused
            && m.blocked.Some? && m.blocked.value.token == token
            && r.value.blocked == Some(m.blocked.value.supersetIdx)
            && Resolves(m, specs, caps) == Some(m.blocked.value.targets)
  {
    UpdateOutcome(t, s, specs, caps, token);
    AskOutcome(WithoutStaleBlock(t.monitors[s], token), specs, caps, t.updateSeq);
    assert t.monitors[s := t.monitors[s]] == t.monitors;
  }

  // ----- what a refusal is about -----

  /** The table listens to an outstanding push, and knows its list and what the OS held before it. */
  lemma OutstandingIsTheWorkers(st: State)
    requires Inv(st) && st.worker.Reporting?
    requires st.worker.s in st.dev.table.monitors && st.dev.table.monitors[st.worker.s].Outstanding(st.worker.seqNo)
    ensures var m := st.dev.table.monitors[st.worker.s];
            && Listens(st.dev.table, st.worker.s, st.worker.seqNo)
            && m.pendingTargets.value.targets == st.worker.targets && m.targetModes == st.worker.before.targets
  {
    PendingListens(st, st.worker.s);
    ListensExactly(st);
    PendingIsTheWorkers(st);
    assert Listed(st)[st.worker.s] == Seen(st)[st.worker.s];
  }

  /** A refusal is remembered of the push that is outstanding. */
  lemma RefusalOfOutstanding(t: Table, s: u64, seqNo: nat, idx: nat, token: nat, published: seq<Mode>)
    requires Listens(t, s, seqNo) && t.monitors[s].Outstanding(seqNo)
    ensures var t' := SettledWith(t, s, seqNo, Blocked(idx, token), published).0;
            && s in t'.monitors && t'.monitors[s].targetModes == t.monitors[s].targetModes
            && t'.monitors[s].blocked == Some(BlockedPush(t.monitors[s].pendingTargets.value.targets, idx, token))
  {
  }

  lemma OtherSettlesRememberNothing(st: State)
    requires st.worker.Reporting? && st.worker.result.Blocked?
    requires st.worker.s in st.dev.table.monitors ==>
               !st.dev.table.monitors[st.worker.s].Outstanding(st.worker.seqNo)
    ensures var t, t' := st.dev.table, SettledNow(st).dev.table;
            t'.monitors.Keys == t.monitors.Keys
            && forall s :: s in t.monitors ==> t'.monitors[s].blocked == t.monitors[s].blocked
  {
  }

  /**
   What the session remembers when a refusal is settled. If the refused push is still the outstanding
   one, its list is remembered, and that list is the one in force exactly when the OS held it already
   when the gate turned the push away. The mode it names is one the OS had committed at the gate, and the
   list leaves it out; in that case, then, the OS had committed a mode the list it held leaves out. If
   the push was superseded nothing new is remembered.
   */
  lemma RefusedListIsInForceExactly(states: seq<State>, actions: seq<Action>, i: nat)
    requires IsRun(states, actions) && i < |states|
    requires states[i].worker.Reporting? && states[i].worker.result.Blocked?
    ensures var st, w := states[i], states[i].worker;
            var t, t' := st.dev.table, SettledNow(st).dev.table;
            if w.s in t.monitors && t.monitors[w.s].Outstanding(w.seqNo) then
              && w.s in t'.monitors
              && t'.monitors[w.s].blocked == Some(BlockedPush(w.targets, w.result.supersetIdx, w.result.token))
              && (w.targets == t'.monitors[w.s].targetModes <==> w.targets == w.before.targets)
              && w.result.supersetIdx < |w.before.modes|
              && w.before.modes[w.result.supersetIdx] !in w.targets
              && w.s in st.os && w.s in st.birth && st.birth[w.s] == st.os[w.s].birth
              && TurnedAway(states, actions, i, w.s, st.birth[w.s], w.targets, w.result.token,
                            w.before.modes[w.result.supersetIdx])
            else
              && t'.monitors.Keys == t.monitors.Keys
              && forall s :: s in t.monitors ==> t'.monitors[s].blocked == t.monitors[s].blocked
  {
    RunsKeepInv(states, actions, i);
    RunsStayEvidenced(states, actions, i);
    var st := states[i];
    if st.worker.s in st.dev.table.monitors && st.dev.table.monitors[st.worker.s].Outstanding(st.worker.seqNo) {
      var w := st.worker;
      OutstandingIsTheWorkers(st);
      SettleFindsThePush(st);
      RefusalOfOutstanding(st.dev.table, w.s, w.seqNo, w.result.supersetIdx, w.result.token, w.targets);
      assert WorkerInv(st);
    } else {
      OtherSettlesRememberNothing(st);
    }
  }

  // ----- every push is settled -----

  /** A list is pending exactly while the push that carries it is queued or under way. */
  lemma PendingIsOnItsWay(states: seq<State>, actions: seq<Action>, i: nat, s: u64)
    requires IsRun(states, actions) && i < |states| && s in states[i].dev.table.monitors
    ensures var st, m := states[i], states[i].dev.table.monitors[s];
            && (m.pendingTargets.Some? ==>
                  exists k :: 0 <= k < |Jobs(st)| && CarriesPending(Jobs(st)[k], s, m.pendingTargets.value))
            && (Jobs(st) == [] ==> m.pendingTargets.None?)
  {
    RunsKeepInv(states, actions, i);
    assert PushesOk(states[i].dev.table.monitors[s], states[i].birth[s], Jobs(states[i]), s);
  }

  /** The worker's steps left until nothing is queued or under way. */
  function Work(st: State): nat {
    3 * |st.queue| + if st.worker.Idle? then 0 else if st.worker.Calling? then 2 else 1
  }

  /** While there is work the worker can go on, and every step it takes, whatever the OS answers,
      leaves less: with no further requests it is done after at most Work(st) steps. */
  lemma WorkerGetsDone(st: State, a: Action)
    ensures Work(st) > 0 <==>
              || (exists works, world :: Enabled(st, Take(works, world)))
              || (exists taken :: Enabled(st, Return(taken)))
              || Enabled(st, Settle)
    ensures Enabled(st, a) && (a.Take? || a.Return? || a.Settle?) ==> Work(Next(st, a)) < Work(st)
    ensures Work(st) == 0 ==> Jobs(st) == []
  {
    var world := World(false, None, 0);
    if st.worker.Idle? && st.queue != [] { assert Enabled(st, Take(true, world)); }
    if st.worker.Calling? { assert Enabled(st, Return(true)); }
  }

  // ----- effects mirror the table -----

  /** Once everything queued is carried out the shell has exactly the table's sessions, each with the
      table's two lists. */
  lemma EffectsMirrorTheTable(states: seq<State>, actions: seq<Action>, i: nat)
    requires IsRun(states, actions) && i < |states|
    ensures ShownOf(AfterTasks(Seen(states[i]), Jobs(states[i]))) == View(states[i].dev.table.monitors)
  {
    RunsKeepInv(states, actions, i);
    ListedIsTheView(states[i]);
  }

  lemma ListedIsTheView(st: State)
    requires QueueInv(st)
    ensures ShownOf(AfterTasks(Seen(st), Jobs(st))) == View(st.dev.table.monitors)
  {
    assert ShownOf(Listed(st)) == View(st.dev.table.monitors);
  }

  /**
   The newest blob, stored or still queued, parses to exactly the table's reservations and the pool,
   exactly unless a start left it behind and no snapshot was queued since: the making of the device from a
   blob it could not take whole, or a start that found no adapter or a member without a reservation.
   */
  lemma NewestBlobIsCurrent(states: seq<State>, actions: seq<Action>, i: nat)
    requires IsRun(states, actions) && i < |states|
    ensures Recorded(Newest(states[i].stored, Effects(states[i].queue))) == Saved(states[i].dev) <==>
            !LeftBehind(states, actions, i)
  {
    RunsKeepInv(states, actions, i);
    assert StoreInv(states[i]);
    UnrecordedMeaning(states, actions, i);
  }

  /** A start at which no adapter was there, or some member had no reservation yet. */
  ghost predicate GoesUnrecorded(st: State, a: Action) { a.Startup? && !StartRecordsItself(st.dev, a.select) }

  /** A request that queues a snapshot. */
  ghost predicate TakesSnapshot(st: State, a: Action) {
    Enabled(st, a) && IsRequest(a) && Snapshots(Answer(st.dev, a).1)
  }

  /** Set at step k and not cleared between then and step i. */
  predicate LastSet(sets: seq<bool>, clears: seq<bool>, k: nat, i: nat)
    requires i <= |sets| == |clears|
  {
    k < i && sets[k] && forall j :: k < j < i ==> !clears[j]
  }

  predicate NeverCleared(clears: seq<bool>, i: nat)
    requires i <= |clears|
  {
    forall j :: 0 <= j < i ==> !clears[j]
  }

  /** A flag that steps set and clear is up exactly when its last setting, or its being up at the start,
      outlived every clearing. */
  lemma {:induction false} FlagMeaning(flag: seq<bool>, sets: seq<bool>, clears: seq<bool>, i: nat)
    requires |flag| == |sets| + 1 == |clears| + 1 && i <= |sets|
    requires forall k :: 0 <= k < |sets| ==> flag[k + 1] == (sets[k] || (flag[k] && !clears[k]))
    ensures flag[i] <==> (flag[0] && NeverCleared(clears, i)) || exists k: nat :: LastSet(sets, clears, k, i)
  {
    if i > 0 {
      FlagMeaning(flag, sets, clears, i - 1);
      if k: nat :| LastSet(sets, clears, k, i) { assert k < i - 1 ==> LastSet(sets, clears, k, i - 1); }
      if sets[i - 1] { assert LastSet(sets, clears, i - 1, i); }
      if !clears[i - 1] {
        var before := i - 1;
        if k: nat :| LastSet(sets, clears, k, before) { assert LastSet(sets, clears, k, i); }
      }
    }
  }

  ghost function Unrecorded(states: seq<State>, actions: seq<Action>): seq<bool>
    requires |states| == |actions| + 1
  {
    seq(|actions|, k requires 0 <= k < |actions| => GoesUnrecorded(states[k], actions[k]))
  }

  ghost function Snapped(states: seq<State>, actions: seq<Action>): seq<bool>
    requires |states| == |actions| + 1
  {
    seq(|actions|, k requires 0 <= k < |actions| => TakesSnapshot(states[k], actions[k]))
  }

  /** The start at step k went unrecorded, and was so still at step i. */
  ghost predicate StillBehind(states: seq<State>, actions: seq<Action>, k: nat, i: nat)
    requires |states| == |actions| + 1 && i < |states|
  {
    LastSet(Unrecorded(states, actions), Snapped(states, actions), k, i)
  }

  /** The device was made from a blob it could not take whole, and no snapshot was queued up to step i. */
  ghost predicate MadeBehind(states: seq<State>, actions: seq<Action>, i: nat)
    requires |states| == |actions| + 1 && i < |states|
  {
    && !TakenWhole(Recorded(states[0].stored), states[0].dev.cfg.TableCap())
    && NeverCleared(Snapped(states, actions), i)
  }

  ghost predicate LeftBehind(states: seq<State>, actions: seq<Action>, i: nat)
    requires |states| == |actions| + 1 && i < |states|
  {
    MadeBehind(states, actions, i) || exists k: nat :: StillBehind(states, actions, k, i)
  }

  lemma FlagStep(st: State, a: Action)
    requires Enabled(st, a)
    ensures Next(st, a).unrecorded == (GoesUnrecorded(st, a) || (st.unrecorded && !TakesSnapshot(st, a)))
  {
  }

  lemma FlagFollows(states: seq<State>, actions: seq<Action>, k: nat)
    requires |states| == |actions| + 1 && k < |actions| && Follows(states, actions, k)
    ensures states[k + 1].unrecorded ==
            (Unrecorded(states, actions)[k] || (states[k].unrecorded && !Snapped(states, actions)[k]))
  {
    FlagStep(states[k], actions[k]);
  }

  lemma MeaningOfFlag(states: seq<State>, sets: seq<bool>, clears: seq<bool>, i: nat)
    requires |states| == |sets| + 1 == |clears| + 1 && i <= |sets|
    requires forall k :: 0 <= k < |sets| ==>
               states[k + 1].unrecorded == (sets[k] || (states[k].unrecorded && !clears[k]))
    ensures states[i].unrecorded <==>
            (states[0].unrecorded && NeverCleared(clears, i)) || exists k: nat :: LastSet(sets, clears, k, i)
  {
    FlagMeaning(seq(|states|, k requires 0 <= k < |states| => states[k].unrecorded), sets, clears, i);
  }

  /** What the history flag stands for. */
  lemma UnrecordedMeaning(states: seq<State>, actions: seq<Action>, i: nat)
    requires IsRun(states, actions) && i < |states|
    ensures states[i].unrecorded <==> LeftBehind(states, actions, i)
  {
    var sets, clears := Unrecorded(states, actions), Snapped(states, actions);
    forall k | 0 <= k < |sets|
      ensures states[k + 1].unrecorded == (sets[k] || (states[k].unrecorded && !clears[k]))
    {
      assert Follows(states, actions, k);
      FlagFollows(states, actions, k);
    }
    MeaningOfFlag(states, sets, clears, i);
    BlobIsTakenWhole(states[0].dev.cfg, states[0].stored);
    forall k: nat ensures StillBehind(states, actions, k, i) <==> LastSet(sets, clears, k, i) {}
  }

  /** With nothing queued or under way the shell has exactly the table's sessions, and the registry the
      current state exactly unless a start left it behind. */
  lemma QuietShellMirrorsTheTable(states: seq<State>, actions: seq<Action>, i: nat)
    requires IsRun(states, actions) && i < |states| && Jobs(states[i]) == []
    ensures states[i].os.Keys == states[i].dev.table.monitors.Keys
    ensures forall s :: s in states[i].os ==> states[i].os[s].shown == View(states[i].dev.table.monitors)[s]
    ensures Recorded(states[i].stored) == Saved(states[i].dev) <==> !LeftBehind(states, actions, i)
  {
    RunsKeepInv(states, actions, i);
    IdleShellMirrors(states[i]);
    UnrecordedMeaning(states, actions, i);
  }

  lemma IdleShellMirrors(st: State)
    requires QueueInv(st) && StoreInv(st) && Jobs(st) == []
    ensures st.os.Keys == st.dev.table.monitors.Keys
    ensures forall s :: s in st.os ==> st.os[s].shown == View(st.dev.table.monitors)[s]
    ensures Recorded(st.stored) == Saved(st.dev) <==> !st.unrecorded
  {
    assert st.worker.Idle? && st.queue == [] && Effects(st.queue) == [];
    assert Seen(st).Keys == st.os.Keys && Seen(st) == Listed(st);
    forall s | s in st.os ensures st.os[s].shown == View(st.dev.table.monitors)[s] {
      assert Seen(st)[s] == Listed(st)[s];
    }
  }

  /** Every list the table publishes is a non-empty part of the create-time list. */
  lemma PublishedListsStayPublishable(states: seq<State>, actions: seq<Action>, i: nat, s: u64)
    requires IsRun(states, actions) && i < |states| && s in states[i].dev.table.monitors
    ensures Publishable(states[i].dev.table.monitors[s].targetModes, states[i].dev.table.monitors[s].modes)
  {
    RunsKeepInv(states, actions, i);
    var t := states[i].dev.table;
    assert MonitorOk(t.monitors[s], s, t.connectors, t.updateSeq);
  }
}
