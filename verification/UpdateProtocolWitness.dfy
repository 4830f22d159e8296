/**
 Runs that show what the comments of the code rule out: a refusal about the list in force, a rejected
 request that drops a refusal, a pool that forgets its members, and a start nobody records.
 */
module UpdateProtocolWitness {
  import opened Prelude
  import opened Modes
  import CommittedPaths
  import opened ModePush
  import opened Persist
  import opened Session
  import opened SessionProofs
  import opened Permanent
  import opened Dispatch
  import opened DispatchProofs
  import opened PoolProofs
  import opened RestartProofs
  import opened UpdateProtocol

  const SLOW: Mode := Mode(1920, 1080, 60_000, Sdr8, false)
  const FAST: Mode := Mode(1920, 1080, 120_000, Sdr8, false)
  const BOTH: seq<Mode> := [SLOW, FAST]
  const CONFIG: Config := Config(Caps(false, false, false), 2, 10, 2)

  function Found(luid: u64): Result<u64> { Ok(1) }

  function NotFound(luid: u64): Result<u64> { Err(NoAdapter) }

  lemma StillFollows(states: seq<State>, actions: seq<Action>, next: State, a: Action, i: nat)
    requires |states| == |actions| + 1 && i < |actions| && Follows(states, actions, i)
    ensures Follows(states + [next], actions + [a], i)
  {
    assert (states + [next])[i] == states[i] && (states + [next])[i + 1] == states[i + 1];
    assert (actions + [a])[i] == actions[i];
  }

  lemma FollowsLast(states: seq<State>, actions: seq<Action>, next: State, a: Action)
    requires |states| == |actions| + 1 && Enabled(states[|actions|], a) && next == Next(states[|actions|], a)
    ensures Follows(states + [next], actions + [a], |actions|)
  {
    assert (states + [next])[|actions|] == states[|actions|] && (states + [next])[|actions| + 1] == next;
    assert (actions + [a])[|actions|] == a;
  }

  lemma Extend(states: seq<State>, actions: seq<Action>, a: Action) returns (states': seq<State>, actions': seq<Action>)
    requires IsRun(states, actions) && Enabled(states[|states| - 1], a)
    ensures IsRun(states', actions') && states'[|states'| - 1] == Next(states[|states| - 1], a)
    ensures states' == states + [Next(states[|states| - 1], a)] && actions' == actions + [a]
  {
    var next := Next(states[|states| - 1], a);
    states', actions' := states + [next], actions + [a];
    FollowsLast(states, actions, next, a);
    RunGrows(states, actions, next, a);
  }

  lemma RunGrows(states: seq<State>, actions: seq<Action>, next: State, a: Action)
    requires IsRun(states, actions) && Follows(states + [next], actions + [a], |actions|)
    ensures IsRun(states + [next], actions + [a])
  {
    var states', actions' := states + [next], actions + [a];
    assert states'[0] == states[0] && Initial(states'[0]);
    forall i | 0 <= i < |actions'| ensures Follows(states', actions', i) {
      if i < |actions| { StillFollows(states, actions, next, a, i); } else { assert i == |actions|; }
    }
  }

  // ----- one monitor, drawn by what matters of it -----

  /** Session 1 is plugged and created with both modes; what is queued are pushes at it. */
  datatype Sketch = Sketch(
    targets: seq<Mode>, pending: Option<PendingTargets>, blocked: Option<BlockedPush>,
    settled: nat, issued: nat, queue: seq<Task>)

  ghost predicate MonitorDrawn(t: Table, k: Sketch) {
    && t.updateSeq == k.issued
    && 1 in t.monitors
    && var m := t.monitors[1];
       && m.modes == BOTH && m.targetModes == k.targets && m.pendingTargets == k.pending
       && m.blocked == k.blocked && m.settledSeq == k.settled
  }

  ghost predicate OsDrawn(os: map<u64, Slot>, targets: seq<Mode>) {
    1 in os && os[1].kind.Arrived? && os[1].shown == Shown(BOTH, targets)
  }

  ghost predicate Drawn(st: State, k: Sketch) {
    && st.worker.Idle? && st.queue == k.queue && st.dev.cfg == CONFIG
    && MonitorDrawn(st.dev.table, k) && OsDrawn(st.os, k.targets)
  }

  function Push(mode: Mode, seqNo: nat): Task { Task(PushModes(1, seqNo, [mode]), seqNo) }

  function AskedFor(k: Sketch, mode: Mode): Sketch {
    k.(pending := Some(PendingTargets(k.issued + 1, [mode])), issued := k.issued + 1,
       queue := k.queue + [Push(mode, k.issued + 1)])
  }

  /** The table's side of asking for one of the two modes. */
  lemma AskTable(dev: Device, mode: Mode, k: Sketch)
    requires dev.cfg == CONFIG && MonitorDrawn(dev.table, k) && k.blocked.None? && mode in BOTH
    requires k.pending.None? ==> k.targets != [mode]
    requires k.pending.Some? ==> k.pending.value.targets != [mode]
    ensures var (dev', _, effects) := AfterUpdate(dev, true, 1, [mode.Spec()], 1, 0);
            && dev'.cfg == CONFIG && MonitorDrawn(dev'.table, AskedFor(k, mode))
            && effects == [PushModes(1, k.issued + 1, [mode])]
  {
    var m := dev.table.monitors[1];
    assert WithoutStaleBlock(m, 0) == m;
    OneModeQueues(m, mode, CONFIG.caps, k.issued + 1);
    assert [mode.Spec()][..1] == [mode.Spec()];
  }

  lemma Ask(states: seq<State>, actions: seq<Action>, mode: Mode, k: Sketch)
    returns (states': seq<State>, actions': seq<Action>)
    requires IsRun(states, actions) && Drawn(states[|states| - 1], k) && k.blocked.None? && mode in BOTH
    requires k.pending.None? ==> k.targets != [mode]
    requires k.pending.Some? ==> k.pending.value.targets != [mode]
    ensures IsRun(states', actions') && Drawn(states'[|states'| - 1], AskedFor(k, mode))
  {
    var st := states[|states| - 1];
    AskTable(st.dev, mode, k);
    var (dev', _, effects) := AfterUpdate(st.dev, true, 1, [mode.Spec()], 1, 0);
    PushQueued(st, dev', effects, mode, k);
    states', actions' := Extend(states, actions, Update(true, 1, [mode.Spec()], 1, 0));
  }

  lemma PushQueued(st: State, dev: Device, effects: seq<Effect>, mode: Mode, k: Sketch)
    requires Drawn(st, k) && dev.cfg == CONFIG && MonitorDrawn(dev.table, AskedFor(k, mode))
    requires effects == [PushModes(1, k.issued + 1, [mode])]
    ensures Drawn(Enqueued(st, dev, effects), AskedFor(k, mode))
  {
    assert Stamped(effects, k.issued + 1) == [Push(mode, k.issued + 1)];
  }

  /** The push at the head of the queue and what its settle leaves. */
  ghost predicate Heads(k: Sketch, mode: Mode) {
    k.queue != [] && k.queue[0] == Push(mode, k.queue[0].stamp) && k.settled < k.queue[0].stamp <= k.issued
  }

  function SettledAs(k: Sketch, result: ModeUpdateResult, published: seq<Mode>): Sketch
    requires k.queue != []
  {
    var n := k.queue[0].stamp;
    var own := k.pending.Some? && k.pending.value.seqNo == n;
    k.(targets := if result.Applied? then published else k.targets,
       pending := if own then None else k.pending,
       blocked := if own && result.Blocked? then Some(BlockedPush(k.pending.value.targets, result.supersetIdx, result.token))
                  else k.blocked,
       settled := n, queue := k.queue[1..])
  }

  lemma SettleTable(t: Table, k: Sketch, mode: Mode, result: ModeUpdateResult)
    requires MonitorDrawn(t, k) && Heads(k, mode) && k.blocked.None?
    ensures MonitorDrawn(SettledWith(t, 1, k.queue[0].stamp, result, [mode]).0, SettledAs(k, result, [mode]))
  {
  }

  /** The worker has reported; it settles. */
  lemma SettleIt(states: seq<State>, actions: seq<Action>, k: Sketch, mode: Mode, result: ModeUpdateResult)
    returns (states': seq<State>, actions': seq<Action>)
    requires IsRun(states, actions) && Heads(k, mode) && k.blocked.None?
    requires var st := states[|states| - 1];
             && MonitorDrawn(st.dev.table, k) && st.dev.cfg == CONFIG && st.queue == k.queue[1..]
             && OsDrawn(st.os, SettledAs(k, result, [mode]).targets)
             && st.worker.Reporting? && st.worker.s == 1 && st.worker.seqNo == k.queue[0].stamp
             && st.worker.targets == [mode] && st.worker.result == result
    ensures IsRun(states', actions') && Drawn(states'[|states'| - 1], SettledAs(k, result, [mode]))
  {
    states', actions' := Extend(states, actions, Settle);
    SettleTable(states[|states| - 1].dev.table, k, mode, result);
  }

  lemma LetOut(st: State, k: Sketch, mode: Mode)
    requires Drawn(st, k) && Heads(k, mode) && mode in BOTH
    ensures Taken(st, true, World(false, None, 0)) ==
            st.(queue := k.queue[1..], worker := Calling(1, k.queue[0].stamp, [mode], Shown(BOTH, k.targets)))
  {
  }

  /** The gate lets the push out, the OS takes it or not, and it is settled. */
  lemma PushThrough(states: seq<State>, actions: seq<Action>, k: Sketch, mode: Mode, taken: bool)
    returns (states': seq<State>, actions': seq<Action>)
    requires IsRun(states, actions) && Drawn(states[|states| - 1], k) && mode in BOTH
    requires Heads(k, mode) && k.blocked.None?
    ensures IsRun(states', actions')
    ensures Drawn(states'[|states'| - 1], SettledAs(k, if taken then Applied else NotApplied, [mode]))
  {
    LetOut(states[|states| - 1], k, mode);
    states', actions' := Extend(states, actions, Take(true, World(false, None, 0)));
    states', actions' := Extend(states', actions', Return(taken));
    states', actions' := SettleIt(states', actions', k, mode, if taken then Applied else NotApplied);
  }

  lemma TurnedAway(st: State, k: Sketch, world: World)
    requires Drawn(st, k) && Heads(k, SLOW)
    requires world == World(false, Some(CommittedPaths.CommittedMode(1920, 1080, 120_000)), 0)
    ensures Taken(st, true, world) ==
            st.(queue := k.queue[1..],
                worker := Reporting(1, k.queue[0].stamp, [SLOW], Shown(BOTH, k.targets), Blocked(1, 0)))
  {
    GateRefuses(SLOW, FAST);
  }

  /** The gate refuses a push of the slow mode alone because the OS runs the fast one. */
  lemma PushRefused(states: seq<State>, actions: seq<Action>, k: Sketch)
    returns (states': seq<State>, actions': seq<Action>)
    requires IsRun(states, actions) && Drawn(states[|states| - 1], k) && Heads(k, SLOW) && k.blocked.None?
    ensures IsRun(states', actions') && Drawn(states'[|states'| - 1], SettledAs(k, Blocked(1, 0), [SLOW]))
  {
    var world := World(false, Some(CommittedPaths.CommittedMode(1920, 1080, 120_000)), 0);
    TurnedAway(states[|states| - 1], k, world);
    states', actions' := Extend(states, actions, Take(true, world));
    states', actions' := SettleIt(states', actions', k, SLOW, Blocked(1, 0));
  }

  // ----- the monitor comes up -----

  function BothRequest(): CreateRequest {
    CreateRequest(1, 5, 0, LEASE_TIMEOUT_DISABLED, 8, 0, 0, 0, 2, [SLOW.Spec(), FAST.Spec()], Looks(0, 0, 0, []))
  }

  lemma BothAreValid()
    ensures ValidList(BothRequest().modes, 2, 8, 0, CONFIG.caps) == Ok(BOTH)
  {
    var specs := BothRequest().modes;
    assert ValidPrefix(specs, 0, 8, 0, CONFIG.caps) == Ok([]);
    assert ValidPrefix(specs, 1, 8, 0, CONFIG.caps) == Ok([] + [SLOW]);
    assert [] + [SLOW] == [SLOW] && [SLOW] + [FAST] == BOTH;
  }

  function Fresh(stored: Option<seq<u8>>, unrecorded: bool): State {
    State(NewDevice(CONFIG, stored), [], Idle, map[], stored, map[], unrecorded)
  }

  lemma FreshIsInitial(stored: Option<seq<u8>>)
    ensures Initial(Fresh(stored, !TakenWhole(Recorded(stored), CONFIG.TableCap())))
  {
    BlobIsTakenWhole(CONFIG, stored);
  }

  lemma NothingStored()
    ensures TakenWhole(Recorded(None), CONFIG.TableCap()) && Initial(Fresh(None, false))
  {
    FreshIsInitial(None);
  }

  lemma CreateBoth(dev: Device) returns (m: Monitor)
    requires dev == NewDevice(CONFIG, None)
    ensures var (dev', _, effects) := AfterCreate(dev, true, 0, BothRequest(), Found);
            && dev'.cfg == CONFIG && MonitorDrawn(dev'.table, Sketch(BOTH, None, None, 0, 0, []))
            && effects == [PlugMonitor(1, m.displayId, m.connectorIndex, BOTH, BOTH, m.adapterLuid, 2), PersistEffect(dev')]
  {
    NewDeviceInv(CONFIG, None);
    BothAreValid();
    assert Admits(dev.table, BothRequest(), CONFIG.caps, Found, dev.preferredAdapter);
    m := AdmittedIsMade(dev.table, 0, BothRequest(), CONFIG.caps, Found, dev.preferredAdapter);
  }

  /** Created, and both its effects queued. */
  ghost predicate ToBePlugged(st: State) {
    && st.worker.Idle? && st.dev.cfg == CONFIG && MonitorDrawn(st.dev.table, Sketch(BOTH, None, None, 0, 0, []))
    && |st.queue| == 2 && st.queue[1].effect.PersistState?
    && st.queue[0].effect.PlugMonitor? && st.queue[0].effect.sessionId == 1
    && st.queue[0].effect.modes == BOTH && st.queue[0].effect.targets == BOTH
  }

  lemma CreateIt(states: seq<State>, actions: seq<Action>) returns (states': seq<State>, actions': seq<Action>)
    requires IsRun(states, actions) && states[|states| - 1] == Fresh(None, false)
    ensures IsRun(states', actions') && ToBePlugged(states'[|states'| - 1])
  {
    var m := CreateBoth(states[|states| - 1].dev);
    states', actions' := Extend(states, actions, Create(true, 0, BothRequest(), Found));
  }

  lemma PlugIt(states: seq<State>, actions: seq<Action>) returns (states': seq<State>, actions': seq<Action>)
    requires IsRun(states, actions) && ToBePlugged(states[|states| - 1])
    ensures IsRun(states', actions') && Drawn(states'[|states'| - 1], Sketch(BOTH, None, None, 0, 0, []))
  {
    states', actions' := Extend(states, actions, Take(true, World(false, None, 0)));
    states', actions' := Extend(states', actions', Take(true, World(false, None, 0)));
  }

  lemma BringUp() returns (states: seq<State>, actions: seq<Action>)
    ensures IsRun(states, actions) && Drawn(states[|states| - 1], Sketch(BOTH, None, None, 0, 0, []))
  {
    NothingStored();
    states, actions := [Fresh(None, false)], [];
    states, actions := CreateIt(states, actions);
    states, actions := PlugIt(states, actions);
  }

  /** The slow mode alone is in force. */
  lemma SlowInForce() returns (states: seq<State>, actions: seq<Action>)
    ensures IsRun(states, actions) && Drawn(states[|states| - 1], Sketch([SLOW], None, None, 1, 1, []))
  {
    var k := Sketch(BOTH, None, None, 0, 0, []);
    states, actions := BringUp();
    states, actions := Ask(states, actions, SLOW, k);
    states, actions := PushThrough(states, actions, AskedFor(k, SLOW), SLOW, true);
    assert SettledAs(AskedFor(k, SLOW), Applied, [SLOW]) == Sketch([SLOW], None, None, 1, 1, []);
  }

  /**
   A run in which a remembered refusal is about the list in force. The slow mode is in force; the fast one
   is asked for, then the slow one again; the OS does not take the first push, and the gate refuses the
   second because the OS runs the fast mode.
   */
  lemma RefusedListCanBeInForce() returns (states: seq<State>, actions: seq<Action>)
    ensures IsRun(states, actions)
    ensures Drawn(states[|states| - 1], Sketch([SLOW], None, Some(BlockedPush([SLOW], 1, 0)), 3, 3, []))
    ensures var m := states[|states| - 1].dev.table.monitors[1]; m.blocked == Some(BlockedPush(m.targetModes, 1, 0))
  {
    var k := Sketch([SLOW], None, None, 1, 1, []);
    states, actions := SlowInForce();
    states, actions := Ask(states, actions, FAST, k);
    k := AskedFor(k, FAST);
    states, actions := Ask(states, actions, SLOW, k);
    k := AskedFor(k, SLOW);
    states, actions := PushThrough(states, actions, k, FAST, false);
    k := SettledAs(k, NotApplied, [FAST]);
    states, actions := PushRefused(states, actions, k);
    assert SettledAs(k, Blocked(1, 0), [SLOW]) == Sketch([SLOW], None, Some(BlockedPush([SLOW], 1, 0)), 3, 3, []);
  }

  /** The same run, and one request more: nonsense, rejected as a bad mode, under a token that moved. It
      queues nothing and is told nothing but no, and the refusal is gone. */
  lemma RejectedRequestDropsARefusal() returns (st: State, specs: seq<ModeSpec>, states: seq<State>, actions: seq<Action>)
    ensures IsRun(states, actions) && |states| >= 2 && st == states[|states| - 2]
    ensures actions[|actions| - 1] == Update(true, 1, specs, 1, 1)
    ensures 1 in st.dev.table.monitors && st.dev.table.monitors[1].modes == BOTH
    ensures var (dev', reply, effects) := AfterUpdate(st.dev, true, 1, specs, 1, 1);
            && reply.result == Code(BadMode) && effects == []
            && dev' == states[|states| - 1].dev
            && st.dev.table.monitors[1].blocked.Some?
            && 1 in dev'.table.monitors && dev'.table.monitors[1].blocked.None?
  {
    states, actions := RefusedListCanBeInForce();
    st := states[|states| - 1];
    specs := [ModeSpec(0, 0, 0)];
    assert ValidPrefix(specs, 0, 8, 0, CONFIG.caps) == Ok([]);
    assert specs[..1] == specs;
    states, actions := Extend(states, actions, Update(true, 1, specs, 1, 1));
  }

  // ----- the pool -----

  function Pool(count: u32): PoolConfig {
    PoolConfig(count, 1920, 1080, 60_000, 8, 0, 0, 0, seq(NAME_CHARS, i => 0))
  }

  /** One member comes up. */
  lemma FirstMember(dev: Device)
    requires dev == NewDevice(CONFIG, None)
    ensures var dev' := AfterSetPool(dev, true, 0, Pool(1), Found).0;
            DeviceInv(dev') && dev'.pool == Pool(1) && Member(dev'.table, 0) && dev'.cfg == CONFIG
            && dev'.preferredAdapter == 0
  {
    NewDeviceInv(CONFIG, None);
    ApplyPoolMirrors(dev, 0, Pool(1), Found);
    NextMemberIsAdmitted(dev.table, Pool(1), 0, CONFIG.caps, Found, 0);
    var mid, after, n := ApplyPoolStages(dev, 0, Pool(1), Found);
  }

  lemma RefusedGrowth(dev: Device, desired: PoolConfig, select: u64 -> Result<u64>, mid: Table, after: Table, n: u32)
    requires Stages(dev, desired, select, mid, after, n) && dev.pool.(count := desired.count) == desired
    requires 0 < dev.pool.count < desired.count && Refused(dev, dev.table, desired, dev.pool.count, select)
    ensures after == dev.table && n == 0
  {
    assert NoneLive(dev.table, 0, 0);
  }

  /** The pool is to grow, the adapter is gone: the count becomes 0 and the member lives on. */
  lemma SecondMemberFails(dev: Device)
    requires DeviceInv(dev) && dev.pool == Pool(1) && Member(dev.table, 0) && dev.cfg == CONFIG && dev.preferredAdapter == 0
    ensures var dev' := AfterSetPool(dev, true, 0, Pool(2), NotFound).0;
            dev'.pool.count == 0 && Member(dev'.table, 0) && !PoolCounted(dev'.table, dev'.pool.count)
  {
    var mid, after, n := ApplyPoolStages(dev, 0, Pool(2), NotFound);
    RefusedGrowth(dev, Pool(2), NotFound, mid, after, n);
  }

  /** A run in which a SET_PERMANENT_POOL follows. */
  lemma ThenSetPool(states: seq<State>, actions: seq<Action>, count: u32, select: u64 -> Result<u64>)
    returns (states': seq<State>, actions': seq<Action>)
    requires IsRun(states, actions)
    ensures IsRun(states', actions')
    ensures states'[|states'| - 1].dev == AfterSetPool(states[|states| - 1].dev, true, 0, Pool(count), select).0
  {
    states', actions' := Extend(states, actions, SetPool(true, 0, Pool(count), select));
  }

  /** A run of two requests that ends with a member live and a count of 0. */
  lemma PoolCanForgetItsMembers() returns (states: seq<State>, actions: seq<Action>)
    ensures IsRun(states, actions)
    ensures var dev := states[|states| - 1].dev;
            dev.pool.count == 0 && Member(dev.table, 0) && !PoolCounted(dev.table, dev.pool.count)
  {
    NothingStored();
    states, actions := [Fresh(None, false)], [];
    FirstMember(NewDevice(CONFIG, None));
    states, actions := ThenSetPool(states, actions, 1, Found);
    SecondMemberFails(states[|states| - 1].dev);
    states, actions := ThenSetPool(states, actions, 2, NotFound);
  }

  lemma StoredParses(p: PersistedState)
    requires p.Valid() && |p.reservations| <= MAX_RESERVATIONS
    ensures Recorded(Some(Serialized(p))) == p
  {
    RoundTrip(p, []);
    assert Serialized(p) + [] == Serialized(p);
  }

  /** A run of no step: the registry reserves a connector this device does not have. The reservation is not
      taken over, and the registry is behind although there is no pool to bring up. */
  lemma BlobCanBeTakenInPart() returns (states: seq<State>, actions: seq<Action>)
    ensures IsRun(states, actions)
    ensures var st := states[|states| - 1];
            && Recorded(st.stored) == PersistedState([(7, 5)], None)
            && Saved(st.dev) != Recorded(st.stored) && st.queue == [] && st.dev.pool.count == 0
  {
    var p := PersistedState([(7, 5)], None);
    var stored := Some(Serialized(p));
    StoredParses(p);
    assert p.reservations[0].1 == 5;
    FreshIsInitial(stored);
    BlobIsTakenWhole(CONFIG, stored);
    states, actions := [Fresh(stored, true)], [];
  }

  /** A run of one step: a stored pool, and a start that finds no adapter. The registry still holds the
      pool and the device has forgotten it. */
  lemma StartCanGoUnrecorded() returns (states: seq<State>, actions: seq<Action>)
    ensures IsRun(states, actions)
    ensures var st := states[|states| - 1];
            && Recorded(st.stored).pool == Some(Pool(1)) && Saved(st.dev).pool == None
            && st.queue == [] && st.unrecorded
  {
    var p := PersistedState([], Some(Pool(1)));
    var stored := Some(Serialized(p));
    StoredParses(p);
    FreshIsInitial(stored);
    NewDeviceInv(CONFIG, stored);
    states, actions := [Fresh(stored, false)], [];
    states, actions := ThenStart(states, actions, NewDevice(CONFIG, stored));
  }

  lemma ThenStart(states: seq<State>, actions: seq<Action>, dev: Device)
    returns (states': seq<State>, actions': seq<Action>)
    requires IsRun(states, actions) && DeviceInv(dev) && dev.table.monitors == map[] && dev.preferredAdapter == 0
    requires dev.pool == Pool(1) && dev.cfg == CONFIG
    requires var st := states[|states| - 1]; st.dev == dev && st.queue == [] && st.worker.Idle?
    ensures IsRun(states', actions')
    ensures var st, st' := states[|states| - 1], states'[|states'| - 1];
            && st'.stored == st.stored && st'.dev == dev.(pool := Pool(0)) && st'.queue == [] && st'.unrecorded
  {
    StartWithoutAdapter(dev, 0, NotFound);
    StartsEmpty(dev);
    states', actions' := Extend(states, actions, Startup(0, NotFound));
  }

  lemma StartsEmpty(dev: Device)
    requires DeviceInv(dev) && dev.table.monitors == map[] && dev.pool == Pool(1) && dev.cfg == CONFIG
    requires dev.preferredAdapter == 0
    ensures AfterStartup(dev, 0, NotFound).1 == []
  {
    CreateFailsCleanly(dev.table, 0, MemberRequest(Pool(1), 0), CONFIG.caps, NotFound, 0);
  }
}
