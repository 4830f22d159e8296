/**
 The whole path of a mode update: requests on one thread, effects on another, and the OS.

 A request runs under the device lock and queues its effects; one worker carries the queue out in
 order. A push of modes takes three of the worker's steps, with any number of requests in between:
 it is decided and handed to the OS, the OS returns, and the outcome is settled with the table.
 A recovery may park every monitor in between and replug it later. A device start brings the
 persisted pool back up before anything else.

 Effects are queued in the order their requests ran; what the OS does with a call, what it has
 committed and whether a push is deferred are the environment's choice at every step.
 */
module UpdateProtocol {
  import opened Prelude
  import opened Modes
  import CommittedPaths
  import opened ModePush
  import opened Persist
  import opened Session
  import opened Dispatch
  import opened DispatchProofs
  import opened PoolProofs

  /** An effect in the queue; the stamp is the table's update counter when it was queued (history). */
  datatype Task = Task(effect: Effect, stamp: nat)

  datatype Kind = Arrived | Parked | Missing

  /** A monitor as the shell has it. shown.targets is the list the OS holds, or, while the monitor is
      parked, the list its re-arrival will plug with. Missing: a plug or replug failed. */
  datatype Slot = Slot(kind: Kind, shown: Shown, birth: nat)

  datatype Worker =
    | Idle
    | Calling(s: u64, seqNo: nat, targets: seq<Mode>, before: Shown)
    | Reporting(s: u64, seqNo: nat, targets: seq<Mode>, before: Shown, result: ModeUpdateResult)

  datatype State = State(
    dev: Device, queue: seq<Task>, worker: Worker, os: map<u64, Slot>, stored: Option<seq<u8>>,
    // history
    birth: map<u64, nat>,   // the update counter when each live session was created
    unrecorded: bool)       // a start left the registry behind, and no snapshot was queued since

  /** What the environment decides about a push. */
  datatype World = World(deferred: bool, committed: Option<CommittedPaths.CommittedMode>, token: nat)

  datatype Action =
    // requests; replies fit their buffers
    | Create(handshaken: bool, nowMs: nat, req: CreateRequest, select: u64 -> Result<u64>)
    | Destroy(handshaken: bool, s: u64)
    | Update(handshaken: bool, s: u64, specs: seq<ModeSpec>, count: u32, token: nat)
    | SetPool(handshaken: bool, nowMs: nat, desired: PoolConfig, select: u64 -> Result<u64>)
    | Ping(nowMs: nat, s: u64)
    | SetRenderAdapter(luid: u64)
    | Tick(nowMs: nat)
    // device start, on the worker, with nothing live and nothing queued
    | Startup(nowMs: nat, select: u64 -> Result<u64>)
    // the worker and the OS
    | Take(works: bool, world: World)
    | Return(taken: bool)
    | Settle
    // recovery, on the worker
    | Park(s: u64)
    | Replug(s: u64, works: bool)

  // ----- what is known of a monitor -----

  datatype Known = Known(shown: Shown, birth: nat)

  /** What the table says. */
  function Listed(st: State): map<u64, Known> {
    map s | s in st.dev.table.monitors ::
      Known(Shown(st.dev.table.monitors[s].modes, st.dev.table.monitors[s].targetModes),
            if s in st.birth then st.birth[s] else 0)
  }

  predicate BusyWith(w: Worker, s: u64) { !w.Idle? && w.s == s }

  /** What the OS held when the worker last settled. */
  function Seen(st: State): map<u64, Known> {
    map s | s in st.os ::
      Known(if BusyWith(st.worker, s) then st.worker.before else st.os[s].shown, st.os[s].birth)
  }

  function AfterTask(v: map<u64, Known>, t: Task): map<u64, Known> {
    match t.effect
    case PlugMonitor(s, _, _, modes, targets, _, _) => v[s := Known(Shown(modes, targets), t.stamp)]
    case UnplugMonitor(s) => v - {s}
    case _ => v
  }

  function AfterTasks(v: map<u64, Known>, q: seq<Task>): map<u64, Known>
    decreases |q|
  {
    if q == [] then v else AfterTasks(AfterTask(v, q[0]), q[1..])
  }

  function Stamped(effects: seq<Effect>, stamp: nat): (r: seq<Task>)
    ensures |r| == |effects|
  {
    seq(|effects|, i requires 0 <= i < |effects| => Task(effects[i], stamp))
  }

  function Effects(q: seq<Task>): (r: seq<Effect>)
    ensures |r| == |q|
  {
    seq(|q|, i requires 0 <= i < |q| => q[i].effect)
  }

  /** Everything not yet settled: the worker's push first, then the queue. */
  function Jobs(st: State): seq<Task> {
    if st.worker.Idle? then st.queue
    else [Task(PushModes(st.worker.s, st.worker.seqNo, st.worker.targets), st.worker.seqNo)] + st.queue
  }

  // ----- the steps -----

  function Births(k: map<u64, Known>): map<u64, nat> { map s | s in k :: k[s].birth }

  /** The device moves on and its effects join the queue. */
  function Enqueued(st: State, dev: Device, effects: seq<Effect>): State {
    var tasks := Stamped(effects, dev.table.updateSeq);
    st.(dev := dev, queue := st.queue + tasks, birth := Births(AfterTasks(Listed(st), tasks)),
        unrecorded := st.unrecorded && !Snapshots(effects))
  }

  ghost function Started(st: State, nowMs: nat, select: u64 -> Result<u64>): State {
    var (dev, effects) := AfterStartup(st.dev, nowMs, select);
    Enqueued(st, dev, effects).(unrecorded := st.unrecorded || !StartRecordsItself(st.dev, select))
  }

  function Pushed(st: State, e: Effect, rest: seq<Task>, world: World): State
    requires e.PushModes?
  {
    var s, seqNo, targets := e.sessionId, e.updateSeq, e.targets;
    var before := if s in st.os then st.os[s].shown else Shown([], []);
    if targets == [] then Reports(st, e, rest, before, Failed(0))
    else if s in st.os && st.os[s].kind.Parked? then
      var outcome := ParkedPush(before.modes, targets);
      var st' := if outcome.Commits()
                 then st.(os := st.os[s := st.os[s].(shown := Shown(before.modes, targets))]) else st;
      Reports(st', e, rest, before, outcome)
    else if world.deferred then Reports(st, e, rest, before, Deferred(|targets|))
    else if s !in st.os || st.os[s].kind.Missing? then Reports(st, e, rest, before, Failed(|targets|))
    else
      match Gate(before.modes, targets, world.committed)
      case NotInSuperset => Reports(st, e, rest, before, Failed(|targets|))
      case EvictsCommitted(committed, idx) =>
        Reports(st, e, rest, before, PushBlocked(committed, idx, world.token, |targets|))
      case _ => st.(queue := rest, worker := Calling(s, seqNo, targets, before))
  }

  function Reports(st: State, e: Effect, rest: seq<Task>, before: Shown, outcome: PushOutcome): State
    requires e.PushModes?
  {
    st.(queue := rest, worker := Reporting(e.sessionId, e.updateSeq, e.targets, before, outcome.SettleResult()))
  }

  function Taken(st: State, works: bool, world: World): State
    requires st.worker.Idle? && st.queue != []
  {
    var t, rest := st.queue[0], st.queue[1..];
    match t.effect
    case PlugMonitor(s, _, _, modes, targets, _, _) =>
      st.(queue := rest, os := st.os[s := Slot(if works then Arrived else Missing, Shown(modes, targets), t.stamp)])
    case UnplugMonitor(s) => st.(queue := rest, os := st.os - {s})
    case PersistState(blob) => st.(queue := rest, stored := Some(blob))
    case PushModes(_, _, _) => Pushed(st, t.effect, rest, world)
  }

  function Returned(st: State, taken: bool): State
    requires st.worker.Calling?
  {
    var w := st.worker;
    var result := if taken then Applied else NotApplied;
    var st' := st.(worker := Reporting(w.s, w.seqNo, w.targets, w.before, result));
    if taken && w.s in st.os then
      st'.(os := st.os[w.s := st.os[w.s].(shown := Shown(w.before.modes, w.targets))])
    else st'
  }

  function SettledNow(st: State): State
    requires st.worker.Reporting?
  {
    var w := st.worker;
    st.(dev := st.dev.(table := SettledWith(st.dev.table, w.s, w.seqNo, w.result, w.targets).0), worker := Idle)
  }

  predicate Enabled(st: State, a: Action) {
    match a
    case Update(_, s, _, _, _) => s in st.dev.table.monitors ==> st.dev.table.monitors[s].modes != []
    case SetPool(_, _, desired, _) => desired.Valid()
    case Startup(_, _) => st.dev.table.monitors == map[] && st.queue == [] && st.worker.Idle?
    case Take(_, _) => st.worker.Idle? && st.queue != []
    case Return(_) => st.worker.Calling?
    case Settle => st.worker.Reporting?
    case Park(s) => st.worker.Idle? && s in st.os && st.os[s].kind.Arrived?
    case Replug(s, _) => st.worker.Idle? && s in st.os && st.os[s].kind.Parked?
    case _ => true
  }

  predicate IsRequest(a: Action) { a.Create? || a.Destroy? || a.Update? || a.SetPool? || a.Tick? }

  /** What a request makes of the device, and the effects it queues. */
  ghost function Answer(dev: Device, a: Action): (Device, seq<Effect>)
    requires IsRequest(a)
    requires a.Update? && a.s in dev.table.monitors ==> dev.table.monitors[a.s].modes != []
  {
    match a
    case Create(handshaken, nowMs, req, select) =>
      var r := AfterCreate(dev, handshaken, nowMs, req, select); (r.0, r.2)
    case Destroy(handshaken, s) =>
      var r := AfterDestroy(dev, handshaken, s); (r.0, r.2)
    case Update(handshaken, s, specs, count, token) =>
      var r := AfterUpdate(dev, handshaken, s, specs, count, token); (r.0, r.2)
    case SetPool(handshaken, nowMs, desired, select) =>
      var r := AfterSetPool(dev, handshaken, nowMs, desired, select); (r.0, r.2)
    case Tick(nowMs) => AfterTick(dev, nowMs)
  }

  ghost function Next(st: State, a: Action): State
    requires Enabled(st, a)
  {
    match a
    case Ping(nowMs, s) => st.(dev := st.dev.(table := Pinged(st.dev.table, nowMs, s)))
    case SetRenderAdapter(luid) => st.(dev := st.dev.(preferredAdapter := luid))
    case Startup(nowMs, select) => Started(st, nowMs, select)
    case Take(works, world) => Taken(st, works, world)
    case Return(taken) => Returned(st, taken)
    case Settle => SettledNow(st)
    case Park(s) => st.(os := st.os[s := st.os[s].(kind := Parked)])
    case Replug(s, works) => st.(os := st.os[s := st.os[s].(kind := if works then Arrived else Missing)])
    case _ => Enqueued(st, Answer(st.dev, a).0, Answer(st.dev, a).1)
  }

  /** A device just made from whatever the registry holds: nothing queued, nothing plugged. What it could
      not take over from the blob leaves the registry behind. */
  ghost predicate Initial(st: State) {
    && st.dev == NewDevice(st.dev.cfg, st.stored)
    && st.queue == [] && st.worker.Idle? && st.os == map[] && st.birth == map[]
    && (st.unrecorded <==> Recorded(st.stored) != Saved(st.dev))
  }

  ghost predicate Follows(states: seq<State>, actions: seq<Action>, i: nat)
    requires i < |actions| && |states| == |actions| + 1
  {
    Enabled(states[i], actions[i]) && states[i + 1] == Next(states[i], actions[i])
  }

  ghost predicate IsRun(states: seq<State>, actions: seq<Action>) {
    && |states| == |actions| + 1
    && Initial(states[0])
    && forall i :: 0 <= i < |actions| ==> Follows(states, actions, i)
  }
}
