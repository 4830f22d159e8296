/** Where a refusal comes from: the gate, and what the OS had committed when it looked. */
module RefusalProofs {
  import opened Prelude
  import opened Modes
  import opened ModePush
  import opened Session
  import opened SessionProofs
  import opened Dispatch
  import opened DispatchProofs
  import opened UpdateProtocol
  import opened UpdateProtocolProofs

  /** The worker takes a push at a plugged monitor and asks the gate. */
  predicate AsksTheGate(st: State, a: Action) {
    && a.Take? && Enabled(st, a) && st.queue[0].effect.PushModes? && !a.world.deferred
    && st.queue[0].effect.sessionId in st.os && st.os[st.queue[0].effect.sessionId].kind.Arrived?
  }

  /** The step turned this list away from session s because the OS had committed `mode`, which the monitor
      was created with and the list leaves out. The birth says which incarnation of the session it was. */
  predicate TurnsAway(st: State, a: Action, s: u64, birth: nat, targets: seq<Mode>, token: nat, mode: Mode) {
    && AsksTheGate(st, a) && st.queue[0].effect.sessionId == s && st.queue[0].effect.targets == targets
    && st.os[s].birth == birth
    && a.world.token == token && a.world.committed.Some? && Is(a.world.committed.value, mode)
    && mode in st.os[s].shown.modes && mode !in targets
  }

  /** Some step before i did. */
  ghost predicate TurnedAway(states: seq<State>, actions: seq<Action>, i: nat, s: u64, birth: nat, targets: seq<Mode>,
                             token: nat, mode: Mode)
    requires i <= |states| && i <= |actions|
  {
    exists j :: 0 <= j < i && TurnsAway(states[j], actions[j], s, birth, targets, token, mode)
  }

  // ----- what one step does to the refusals -----

  predicate SameRefusal(st: State, st': State, s: u64) {
    var t, t' := st.dev.table, st'.dev.table;
    && s in t.monitors && s in t'.monitors && s in st.birth && s in st'.birth
    && t'.monitors[s].blocked == t.monitors[s].blocked && t'.monitors[s].modes == t.monitors[s].modes
    && st'.birth[s] == st.birth[s]
  }

  predicate Refuses(t: Table, s: u64) { s in t.monitors && t.monitors[s].blocked.Some? }

  /** No refusal is new. */
  ghost predicate KeepsRefusals(st: State, st': State) {
    forall s :: Refuses(st'.dev.table, s) ==> SameRefusal(st, st', s)
  }

  lemma RequestsKeepRefusals(st: State, dev: Device, effects: seq<Effect>)
    requires QueueInv(st) && QueueInv(Enqueued(st, dev, effects))
    requires Leaves(st.dev.table.monitors, effects, dev.table.monitors, st.dev.table.updateSeq)
    requires dev.table.updateSeq == st.dev.table.updateSeq
    ensures KeepsRefusals(st, Enqueued(st, dev, effects))
  {
    forall s | Refuses(dev.table, s) ensures SameRefusal(st, Enqueued(st, dev, effects), s) {
      assert !Names(effects, s);
      StampedBirths(Listed(st), effects, dev.table.updateSeq, s);
    }
  }

  lemma UpdateKeepsRefusals(st: State, st': State, s: u64, token: nat, effects: seq<Effect>)
    requires UpdateShape(st.dev.table, s, token, st'.dev.table, effects) && st'.birth == st.birth
    requires st.birth.Keys == st.dev.table.monitors.Keys
    ensures KeepsRefusals(st, st')
  {
  }

  lemma AskingKeepsRefusals(st: State, a: Action) returns (st': State)
    requires Inv(st) && Enabled(st, a) && a.Update?
    ensures st' == Next(st, a) && KeepsRefusals(st, st')
  {
    UpdateFacts(st.dev, a);
    var dev, effects := Answer(st.dev, a).0, Answer(st.dev, a).1;
    st' := Enqueued(st, dev, effects);
    QueuedUpdateKeepsRefusals(st, dev, a.s, a.token, effects);
  }

  lemma QueuedUpdateKeepsRefusals(st: State, dev: Device, s: u64, token: nat, effects: seq<Effect>)
    requires QueueInv(st) && TableInv(dev.table) && UpdateShape(st.dev.table, s, token, dev.table, effects)
    requires View(dev.table.monitors) == View(st.dev.table.monitors)
    ensures KeepsRefusals(st, Enqueued(st, dev, effects))
  {
    if effects == [] { QuietUpdateKeepsQueue(st, dev); } else { QueuedUpdateKeepsQueue(st, dev, s, token, effects); }
    UpdateKeepsRefusals(st, Enqueued(st, dev, effects), s, token, effects);
  }

  lemma RequestingKeepsRefusals(st: State, a: Action) returns (st': State)
    requires Inv(st) && Enabled(st, a) && IsRequest(a) && !a.Update?
    ensures st' == Next(st, a) && KeepsRefusals(st, st')
  {
    AnswerRequests(st.dev, a);
    var dev, effects := Answer(st.dev, a).0, Answer(st.dev, a).1;
    st' := Enqueued(st, dev, effects);
    RequestKeepsQueue(st, dev, effects);
    RequestsKeepRefusals(st, dev, effects);
  }

  /** The refusal the worker is about to settle, of the incarnation it pushed at. */
  predicate Settles(st: State, st': State, s: u64) {
    var w := st.worker;
    && w.Reporting? && w.s == s && Refuses(st'.dev.table, s)
    && s in st.os && s in st'.birth && st'.birth[s] == st.os[s].birth
    && var m := st'.dev.table.monitors[s];
       w.result == Blocked(m.blocked.value.supersetIdx, m.blocked.value.token)
       && w.targets == m.blocked.value.targets && w.before.modes == m.modes
  }

  lemma DecidedRefusal(m: Monitor, w: Worker)
    requires w.Reporting? && (m.Outstanding(w.seqNo) ==> m.pendingTargets.value.targets == w.targets)
    ensures var m' := Decided(m, w.seqNo, w.result, w.targets).0;
            && m'.modes == m.modes
            && (m'.blocked.Some? && m'.blocked != m.blocked ==>
                  w.result == Blocked(m'.blocked.value.supersetIdx, m'.blocked.value.token)
                  && w.targets == m'.blocked.value.targets)
  {
  }

  /** A settle the table listens to finds the lists the worker saw. */
  lemma SettleFindsThePush(st: State)
    requires Inv(st) && st.worker.Reporting? && Listens(st.dev.table, st.worker.s, st.worker.seqNo)
    ensures var m := st.dev.table.monitors[st.worker.s];
            && (m.Outstanding(st.worker.seqNo) ==> m.pendingTargets.value.targets == st.worker.targets)
            && m.modes == st.worker.before.modes
    ensures st.worker.s in st.os && st.worker.s in st.birth && st.birth[st.worker.s] == st.os[st.worker.s].birth
  {
    ListensExactly(st);
    if st.dev.table.monitors[st.worker.s].Outstanding(st.worker.seqNo) { PendingIsTheWorkers(st); }
    assert Listed(st)[st.worker.s] == Seen(st)[st.worker.s];
  }

  lemma SettleRefuses(st: State, s: u64)
    requires Inv(st) && st.worker.Reporting? && Refuses(SettledNow(st).dev.table, s)
    ensures SameRefusal(st, SettledNow(st), s) || Settles(st, SettledNow(st), s)
  {
    var w, t := st.worker, st.dev.table;
    SettleOutcomeMeaning(t, w.s, w.seqNo, w.result, w.targets);
    assert st.birth.Keys == t.monitors.Keys;
    if s == w.s && Listens(t, w.s, w.seqNo) {
      SettleFindsThePush(st);
      DecidedRefusal(t.monitors[s], w);
    }
  }

  // ----- what one step does to the worker -----

  predicate Blames(w: Worker) { w.Reporting? && w.result.Blocked? }

  /** The worker's refusal is one of this step. */
  predicate BlamesNow(st: State, a: Action, st': State) {
    var w := st'.worker;
    && Blames(w) && w.s in st'.os && w.result.supersetIdx < |w.before.modes|
    && TurnsAway(st, a, w.s, st'.os[w.s].birth, w.targets, w.result.token, w.before.modes[w.result.supersetIdx])
  }

  /** Only the gate reports a refusal, and only of what it was asked. */
  lemma GateReports(st: State, e: Effect, rest: seq<Task>, world: World)
    requires e.PushModes? && e.sessionId in st.os && Blames(Pushed(st, e, rest, world).worker)
    ensures st.os[e.sessionId].kind.Arrived? && !world.deferred
    ensures var g, w := Gate(st.os[e.sessionId].shown.modes, e.targets, world.committed), Pushed(st, e, rest, world).worker;
            && g.EvictsCommitted? && w.s == e.sessionId && w.targets == e.targets
            && w.before == st.os[e.sessionId].shown && w.result == Blocked(g.supersetIdx, world.token)
            && Pushed(st, e, rest, world).os == st.os
  {
  }

  /** A push reported as refused was turned away in this very step. */
  lemma PushBlames(st: State, a: Action)
    requires Inv(st) && a.Take? && Enabled(st, a) && st.queue[0].effect.PushModes?
    requires Blames(Taken(st, a.works, a.world).worker)
    ensures BlamesNow(st, a, Taken(st, a.works, a.world))
  {
    var e := st.queue[0].effect;
    assert Fits(Seen(st), st.queue[0]);
    GateReports(st, e, st.queue[1..], a.world);
    GateMeaning(st.os[e.sessionId].shown.modes, e.targets, a.world.committed);
  }

  /** Every other step leaves a worker that blames as it was, and its monitor too. */
  lemma OthersBlameNobody(st: State, a: Action) returns (st': State)
    requires Enabled(st, a) && !(a.Take? && st.queue[0].effect.PushModes?)
    ensures st' == Next(st, a) && (Blames(st'.worker) ==> st'.worker == st.worker && st'.os == st.os)
  {
    st' := Next(st, a);
  }

  lemma StepBlames(st: State, a: Action) returns (st': State)
    requires Inv(st) && Enabled(st, a)
    ensures st' == Next(st, a)
    ensures Blames(st'.worker) ==> (st'.worker == st.worker && st'.os == st.os) || BlamesNow(st, a, st')
  {
    if a.Take? && st.queue[0].effect.PushModes? {
      st' := Taken(st, a.works, a.world);
      if Blames(st'.worker) { PushBlames(st, a); }
    } else {
      st' := OthersBlameNobody(st, a);
    }
  }

  lemma StartKeepsRefusals(st: State, a: Action) returns (st': State)
    requires Inv(st) && Enabled(st, a) && a.Startup?
    ensures st' == Next(st, a) && KeepsRefusals(st, st')
  {
    var (dev, effects) := AfterStartup(st.dev, a.nowMs, a.select);
    StartupMirrors(st.dev, a.nowMs, a.select);
    RequestKeepsQueue(st, dev, effects);
    RequestsKeepRefusals(st, dev, effects);
    st' := Started(st, a.nowMs, a.select);
    FlagKeepsRefusals(st, Enqueued(st, dev, effects), st');
  }

  lemma FlagKeepsRefusals(st: State, st': State, st'': State)
    requires KeepsRefusals(st, st') && st''.dev == st'.dev && st''.birth == st'.birth
    ensures KeepsRefusals(st, st'')
  {
    forall s | Refuses(st''.dev.table, s) ensures SameRefusal(st, st'', s) { assert SameRefusal(st, st', s); }
  }

  /** Every step but a settle keeps the refusals. */
  lemma OthersKeepRefusals(st: State, a: Action) returns (st': State)
    requires Inv(st) && Enabled(st, a) && !a.Settle?
    ensures st' == Next(st, a) && KeepsRefusals(st, st')
  {
    if a.Update? { st' := AskingKeepsRefusals(st, a); }
    else if IsRequest(a) { st' := RequestingKeepsRefusals(st, a); }
    else if a.Startup? { st' := StartKeepsRefusals(st, a); }
    else { st' := TheRestKeepRefusals(st, a); }
  }

  lemma TheRestKeepRefusals(st: State, a: Action) returns (st': State)
    requires st.birth.Keys == st.dev.table.monitors.Keys
    requires Enabled(st, a) && !IsRequest(a) && !a.Startup? && !a.Settle?
    ensures st' == Next(st, a) && KeepsRefusals(st, st')
  {
    st' := Next(st, a);
  }

  lemma StepRefuses(st: State, a: Action, s: u64) returns (st': State)
    requires Inv(st) && Enabled(st, a)
    ensures st' == Next(st, a)
    ensures Refuses(st'.dev.table, s) ==> SameRefusal(st, st', s) || Settles(st, st', s)
  {
    if a.Settle? {
      st' := SettledNow(st);
      if Refuses(st'.dev.table, s) { SettleRefuses(st, s); }
    } else {
      st' := OthersKeepRefusals(st, a);
    }
  }

  // ----- over runs -----

  /** The refusal the worker is reporting, or has yet to settle, was the gate's. */
  ghost predicate ReportEvidenced(states: seq<State>, actions: seq<Action>, i: nat)
    requires i < |states| && i <= |actions|
  {
    Blames(states[i].worker) ==>
      var w := states[i].worker;
      && w.s in states[i].os && w.result.supersetIdx < |w.before.modes|
      && TurnedAway(states, actions, i, w.s, states[i].os[w.s].birth, w.targets, w.result.token,
                    w.before.modes[w.result.supersetIdx])
  }

  /** So was the refusal remembered of s, of this incarnation. */
  ghost predicate RefusalEvidenced(states: seq<State>, actions: seq<Action>, i: nat, s: u64)
    requires i < |states| && i <= |actions| && Refuses(states[i].dev.table, s)
  {
    var m := states[i].dev.table.monitors[s];
    var b := m.blocked.value;
    && s in states[i].birth && b.supersetIdx < |m.modes|
    && TurnedAway(states, actions, i, s, states[i].birth[s], b.targets, b.token, m.modes[b.supersetIdx])
  }

  ghost predicate Evidenced(states: seq<State>, actions: seq<Action>, i: nat)
    requires i < |states| && i <= |actions|
  {
    && ReportEvidenced(states, actions, i)
    && forall s :: Refuses(states[i].dev.table, s) ==> RefusalEvidenced(states, actions, i, s)
  }

  lemma TurnedAwayBefore(states: seq<State>, actions: seq<Action>, i: nat, s: u64, birth: nat, targets: seq<Mode>,
                         token: nat, mode: Mode)
    requires i < |states| && i < |actions|
    requires TurnedAway(states, actions, i, s, birth, targets, token, mode)
             || TurnsAway(states[i], actions[i], s, birth, targets, token, mode)
    ensures TurnedAway(states, actions, i + 1, s, birth, targets, token, mode)
  {
    if j :| 0 <= j < i && TurnsAway(states[j], actions[j], s, birth, targets, token, mode) {
      assert TurnsAway(states[j], actions[j], s, birth, targets, token, mode);
    }
  }

  lemma WorkerStaysEvidenced(states: seq<State>, actions: seq<Action>, i: nat)
    requires i < |actions| && |states| == |actions| + 1 && Follows(states, actions, i)
    requires Inv(states[i]) && Evidenced(states, actions, i)
    ensures ReportEvidenced(states, actions, i + 1)
  {
    var st' := StepBlames(states[i], actions[i]);
    var w := st'.worker;
    if Blames(w) {
      TurnedAwayBefore(states, actions, i, w.s, st'.os[w.s].birth, w.targets, w.result.token,
                       w.before.modes[w.result.supersetIdx]);
    }
  }

  lemma RefusalStaysEvidenced(states: seq<State>, actions: seq<Action>, i: nat, s: u64)
    requires i < |actions| && |states| == |actions| + 1 && Follows(states, actions, i)
    requires Inv(states[i]) && Evidenced(states, actions, i) && Refuses(states[i + 1].dev.table, s)
    ensures RefusalEvidenced(states, actions, i + 1, s)
  {
    var st' := StepRefuses(states[i], actions[i], s);
    var m := st'.dev.table.monitors[s];
    var b := m.blocked.value;
    if SameRefusal(states[i], st', s) { assert RefusalEvidenced(states, actions, i, s); }
    TurnedAwayBefore(states, actions, i, s, st'.birth[s], b.targets, b.token, m.modes[b.supersetIdx]);
  }

  lemma OneMoreEvidenced(states: seq<State>, actions: seq<Action>, k: nat)
    requires k < |actions| && |states| == |actions| + 1 && Follows(states, actions, k)
    requires Inv(states[k]) && Evidenced(states, actions, k)
    ensures Evidenced(states, actions, k + 1)
  {
    var next := k + 1;
    WorkerStaysEvidenced(states, actions, k);
    forall s | Refuses(states[next].dev.table, s) ensures RefusalEvidenced(states, actions, next, s) {
      RefusalStaysEvidenced(states, actions, k, s);
    }
  }

  lemma RunsStayEvidenced(states: seq<State>, actions: seq<Action>, i: nat)
    requires IsRun(states, actions) && i < |states|
    ensures Evidenced(states, actions, i)
  {
    for k := 0 to i
      invariant Evidenced(states, actions, k)
    {
      RunsKeepInv(states, actions, k);
      assert Follows(states, actions, k);
      OneMoreEvidenced(states, actions, k);
    }
  }
}
