/**
 The lock-free record of the modes the OS has committed, as a machine of atomic steps.

 Every load, store, fetch-or and compare-exchange of the driver is one step of one thread; a run
 interleaves the steps of any number of threads. Memory is sequentially consistent and the version
 and generation counters do not wrap.

 The fields of Memory below `word` are history variables: no step reads them to decide
 anything, they only remember what the statements in CommittedPathsProofs talk about.
 */
module CommittedPaths {
  import opened Prelude

  const SLOTS: nat := 16
  const READ_RETRIES: nat := 4
  const ACQUIRE_ATTEMPTS: nat := 4
  const RELEASE_ATTEMPTS: nat := 4

  datatype CommittedMode = CommittedMode(width: u32, height: u32, refreshMillihz: u32)

  /** The three payload words of a slot; monitor 0 marks an empty slot. */
  datatype Payload = Payload(monitor: nat, size: nat, refresh: u32)

  const EMPTY: Payload := Payload(0, 0, 0)

  /** One slot of the shared array: the seqlock version and the payload words. */
  datatype Slot = Slot(version: nat, words: Payload)

  type Record = seq<Payload>

  /** The record with nothing committed. */
  function Nothing(): (r: Record)
    ensures |r| == SLOTS && forall i :: 0 <= i < SLOTS ==> r[i] == EMPTY
  {
    seq(SLOTS, i => EMPTY)
  }

  function PackSize(mode: CommittedMode): nat { mode.width * 0x1_0000_0000 + mode.height }

  function UnpackMode(p: Payload): CommittedMode {
    CommittedMode(p.size / 0x1_0000_0000 % 0x1_0000_0000, p.size % 0x1_0000_0000, p.refresh)
  }

  type Paths = seq<(nat, CommittedMode)>

  /** What a commit puts in slot i: path i when it names a monitor, nothing otherwise. */
  function PathPayload(paths: Paths, i: nat): Payload {
    if i < |paths| && paths[i].0 != 0
    then Payload(paths[i].0, PackSize(paths[i].1), paths[i].1.refreshMillihz)
    else EMPTY
  }

  datatype Update = Apply(paths: Paths, total: nat) | Forget(monitor: nat)

  /** The token word: bit WRITING and bit CONTENDED. FREE is both clear. */
  datatype Word = Word(writing: bool, contended: bool)

  const FREE: Word := Word(false, false)

  // ----- program counters -----

  datatype Stage = LoadVersion | StoreOdd | StoreMonitor | StoreSize | StoreRefresh | StoreEven

  /** Why a slot is being published, which decides the payload and what comes next. */
  datatype Job = Applying(paths: Paths, total: nat) | Forgetting(monitor: nat) | Clearing(attempt: nat)

  /** The stages of one seqlock read of a slot. */
  datatype Look =
    | LookVersion
    | LookMonitor(before: nat)
    | LookSize(before: nat, monitor: nat)
    | LookRefresh(before: nat, monitor: nat, size: nat)
    | LookAgain(before: nat, monitor: nat, size: nat, refresh: u32)

  datatype Pc =
    | Idle
    // begin_write
    | Acquire(update: Update, attempt: nat)
    | Flag(update: Update, attempt: nat)
    | ForceFlag(update: Update)
    | BumpTurnedAway
    // apply and forget, holding the token
    | Publish(job: Job, slot: nat, stage: Stage, v: nat)
    | Scan(monitor: nat, slot: nat, tries: nat, look: Look)
    | StoreActive(total: nat)
    | EndWrite
    // release
    | ReleaseBump(attempt: nat)
    | ReleaseCas(attempt: nat)
    | ReleaseUnflag(attempt: nat)
    | ReleaseStoreActive(attempt: nat)
    | FinalBump
    | FinalStore
    // get and get_with_token; `from` is the slot versions when the call began (history)
    | TokenLoad(monitor: nat)
    | Get(monitor: nat, token: Option<nat>, from: seq<nat>, slot: nat, tries: nat, look: Look)
    | Answered(monitor: nat, token: Option<nat>, from: seq<nat>, answer: Option<CommittedMode>,
               slot: nat, nth: nat)

  type Tid = nat

  // ----- history -----

  /** Token-word history: an update that took the token (was it flagged already?), or one turned away. */
  datatype Event = Took(update: Update, flagged: bool) | Missed(update: Update)

  /** Shared memory, followed by the history variables. */
  datatype Memory = Memory(
    slots: seq<Slot>,
    active: nat,
    generation: nat,
    word: Word,
    // history variables
    owner: Option<Tid>,
    hist: seq<Event>,
    mark: nat,                   // held: index of the holder's Took; free: |hist| at the last release
    base: Record,                // slot contents when the token was last taken
    published: seq<seq<Payload>>, // per slot, every payload ever published, oldest first
    clean: seq<nat>)             // slot versions when the generation last moved

  datatype State = State(mem: Memory, threads: map<Tid, Pc>)

  function Versions(slots: seq<Slot>): (r: seq<nat>)
    ensures |r| == |slots| && forall i :: 0 <= i < |r| ==> r[i] == slots[i].version
  {
    seq(|slots|, i requires 0 <= i < |slots| => slots[i].version)
  }

  function Contents(slots: seq<Slot>): (r: Record)
    ensures |r| == |slots| && forall i :: 0 <= i < |r| ==> r[i] == slots[i].words
  {
    seq(|slots|, i requires 0 <= i < |slots| => slots[i].words)
  }

  ghost predicate Fresh(m: Memory) {
    && m.slots == seq(SLOTS, i => Slot(0, EMPTY))
    && m.active == 0 && m.generation == 0 && m.word == FREE
    && m.owner == None && m.hist == [] && m.mark == 0 && m.base == Nothing()
    && m.published == seq(SLOTS, i => [EMPTY])
    && m.clean == seq(SLOTS, i => 0)
  }

  ghost predicate Init(s: State) {
    Fresh(s.mem) && forall t :: t in s.threads ==> s.threads[t] == Idle
  }

  // ----- steps -----

  /** What one step leaves: the memory, and where the thread stands. */
  datatype Left = Left(mem: Memory, pc: Pc)

  predicate Shaped(m: Memory) { |m.slots| == |m.published| == |m.clean| == |m.base| == SLOTS }

  function SetVersion(m: Memory, i: nat, v: nat): Memory
    requires i < |m.slots|
  {
    m.(slots := m.slots[i := m.slots[i].(version := v)])
  }

  function SetWords(m: Memory, i: nat, w: Payload): Memory
    requires i < |m.slots|
  {
    m.(slots := m.slots[i := m.slots[i].(words := w)])
  }

  function Bump(m: Memory): Memory {
    m.(generation := m.generation + 1, clean := Versions(m.slots))
  }

  function JobPayload(job: Job, i: nat): Payload {
    if job.Applying? then PathPayload(job.paths, i) else EMPTY
  }

  /** Where a holder goes once slot i of its job is done. */
  function AfterSlot(job: Job, i: nat): Pc {
    match job
    case Applying(paths, total) =>
      if i + 1 < SLOTS then Publish(job, i + 1, LoadVersion, 0) else StoreActive(total)
    case Forgetting(m) => AfterScan(m, i)
    case Clearing(k) =>
      if i + 1 < SLOTS then Publish(job, i + 1, LoadVersion, 0) else ReleaseStoreActive(k)
  }

  function AfterScan(monitor: nat, i: nat): Pc {
    if i + 1 < SLOTS then Scan(monitor, i + 1, 0, LookVersion) else EndWrite
  }

  /** One step of publish (clear publishes the empty payload) on slot i. */
  function PublishStep(m: Memory, job: Job, i: nat, stage: Stage, v: nat): Left
    requires i < |m.slots| == |m.published|
  {
    var w := m.slots[i].words;
    match stage
    case LoadVersion => Left(m, Publish(job, i, StoreOdd, m.slots[i].version))
    case StoreOdd => Left(SetVersion(m, i, v + 1), Publish(job, i, StoreMonitor, v))
    case StoreMonitor =>
      Left(SetWords(m, i, w.(monitor := JobPayload(job, i).monitor)), Publish(job, i, StoreSize, v))
    case StoreSize =>
      Left(SetWords(m, i, w.(size := JobPayload(job, i).size)), Publish(job, i, StoreRefresh, v))
    case StoreRefresh =>
      Left(SetWords(m, i, w.(refresh := JobPayload(job, i).refresh)), Publish(job, i, StoreEven, v))
    case StoreEven =>
      Left(SetVersion(m, i, v + 2).(published := m.published[i := m.published[i] + [JobPayload(job, i)]]),
           AfterSlot(job, i))
  }

  /** The effect of one seqlock load: go on, try again, or a payload read under one stable version. */
  datatype Sight = More(look: Look) | Again | Found(payload: Payload, version: nat)

  function Observe(slot: Slot, look: Look): Sight {
    match look
    case LookVersion => if slot.version % 2 != 0 then Again else More(LookMonitor(slot.version))
    case LookMonitor(b) => More(LookSize(b, slot.words.monitor))
    case LookSize(b, m) => More(LookRefresh(b, m, slot.words.size))
    case LookRefresh(b, m, z) => More(LookAgain(b, m, z, slot.words.refresh))
    case LookAgain(b, m, z, r) => if slot.version != b then Again else Found(Payload(m, z, r), b)
  }

  /** forget's walk: clear the slot holding the monitor, pass over every other one. */
  function ScanStep(slot: Slot, m: nat, i: nat, tries: nat, look: Look): Pc {
    match Observe(slot, look)
    case More(l) => Scan(m, i, tries, l)
    case Again =>
      if tries + 1 < READ_RETRIES then Scan(m, i, tries + 1, LookVersion) else AfterScan(m, i)
    case Found(p, _) =>
      if p.monitor != 0 && p.monitor == m then Publish(Forgetting(m), i, LoadVersion, 0)
      else AfterScan(m, i)
  }

  function AfterGet(m: nat, token: Option<nat>, from: seq<nat>, i: nat): Pc {
    if i + 1 < SLOTS then Get(m, token, from, i + 1, 0, LookVersion)
    else Answered(m, token, from, None, 0, 0)
  }

  function GetStep(slot: Slot, m: nat, token: Option<nat>, from: seq<nat>,
                   i: nat, tries: nat, look: Look): Pc {
    match Observe(slot, look)
    case More(l) => Get(m, token, from, i, tries, l)
    case Again =>
      if tries + 1 < READ_RETRIES then Get(m, token, from, i, tries + 1, LookVersion)
      else AfterGet(m, token, from, i)
    case Found(p, v) =>
      if p.monitor != 0 && p.monitor == m
      then Answered(m, token, from, Some(UnpackMode(p)), i, v / 2)
      else AfterGet(m, token, from, i)
  }

  function FirstWork(u: Update): Pc {
    match u
    case Apply(paths, total) => Publish(Applying(paths, total), 0, LoadVersion, 0)
    case Forget(m) => Scan(m, 0, 0, LookVersion)
  }

  /** fetch_or(WRITING): the token is ours when the bit was clear. */
  function AcquireStep(m: Memory, t: Tid, u: Update, k: nat): Left {
    if m.word.writing then Left(m, Flag(u, k))
    else
      Left(m.(word := m.word.(writing := true), owner := Some(t), base := Contents(m.slots),
              mark := |m.hist|, hist := m.hist + [Took(u, m.word.contended)]),
           FirstWork(u))
  }

  /** compare_exchange(WRITING, WRITING | CONTENDED): only a holder still there can be flagged. */
  function FlagStep(m: Memory, u: Update, k: nat): Left {
    if m.word == Word(true, false)
    then Left(m.(word := Word(true, true), hist := m.hist + [Missed(u)]), BumpTurnedAway)
    else if k + 1 < ACQUIRE_ATTEMPTS then Left(m, Acquire(u, k + 1))
    else Left(m, ForceFlag(u))
  }

  function GiveBack(m: Memory): Memory { m.(word := FREE, owner := None, mark := |m.hist|) }

  predicate InBounds(pc: Pc) {
    match pc
    case Publish(_, i, _, _) => i < SLOTS
    case Scan(_, i, _, _) => i < SLOTS
    case Get(_, _, _, i, _, _) => i < SLOTS
    case _ => true
  }

  /** The step a thread standing at pc takes; steps are deterministic, only the schedule is not. */
  function Step(m: Memory, t: Tid, pc: Pc): Left
    requires Shaped(m) && InBounds(pc)
  {
    match pc
    case Idle => Left(m, pc)
    case Acquire(u, k) => AcquireStep(m, t, u, k)
    case Flag(u, k) => FlagStep(m, u, k)
    case ForceFlag(u) =>
      Left(m.(word := m.word.(contended := true), hist := m.hist + [Missed(u)]), BumpTurnedAway)
    case BumpTurnedAway => Left(Bump(m), Idle)
    case Publish(job, i, stage, v) => PublishStep(m, job, i, stage, v)
    case Scan(mon, i, tries, look) => Left(m, ScanStep(m.slots[i], mon, i, tries, look))
    case StoreActive(total) => Left(m.(active := total), EndWrite)
    case EndWrite => Left(m, ReleaseBump(0))
    case ReleaseBump(k) => Left(Bump(m), ReleaseCas(k))
    case ReleaseCas(k) =>
      if m.word == Word(true, false) then Left(GiveBack(m), Idle) else Left(m, ReleaseUnflag(k))
    case ReleaseUnflag(k) =>
      Left(m.(word := m.word.(contended := false)), Publish(Clearing(k), 0, LoadVersion, 0))
    case ReleaseStoreActive(k) =>
      Left(m.(active := 0), if k + 1 < RELEASE_ATTEMPTS then ReleaseBump(k + 1) else FinalBump)
    case FinalBump => Left(Bump(m), FinalStore)
    case FinalStore => Left(GiveBack(m), Idle)
    case TokenLoad(mon) =>
      Left(m, Get(mon, Some(m.generation), Versions(m.slots), 0, 0, LookVersion))
    case Get(mon, token, from, i, tries, look) =>
      Left(m, GetStep(m.slots[i], mon, token, from, i, tries, look))
    case Answered(_, _, _, _, _, _) => Left(m, pc)
  }

  predicate Ready(pc: Pc) { pc.Idle? || pc.Answered? }

  datatype Call = Write(update: Update) | GetWithToken(monitor: nat) | PlainGet(monitor: nat)

  /** Calls the source answers before touching the record (monitor 0) start nothing. */
  predicate Starts(call: Call) {
    match call
    case Write(Apply(_, _)) => true
    case Write(Forget(m)) => m != 0
    case GetWithToken(m) => m != 0
    case PlainGet(m) => m != 0
  }

  function Entry(m: Memory, call: Call): Pc {
    match call
    case Write(u) => Acquire(u, 0)
    case GetWithToken(mon) => TokenLoad(mon)
    case PlainGet(mon) => Get(mon, None, Versions(m.slots), 0, 0, LookVersion)
  }

  /** A thread between calls begins one, or a thread inside a call takes its next step. */
  datatype Move = Begin(tid: Tid, call: Call) | Run(tid: Tid)

  predicate Enabled(s: State, mv: Move) {
    && mv.tid in s.threads
    && Shaped(s.mem)
    && match mv
       case Begin(t, call) => Ready(s.threads[t]) && Starts(call)
       case Run(t) => !Ready(s.threads[t]) && InBounds(s.threads[t])
  }

  function Do(s: State, mv: Move): State
    requires Enabled(s, mv)
  {
    match mv
    case Begin(t, call) => s.(threads := s.threads[t := Entry(s.mem, call)])
    case Run(t) =>
      var left := Step(s.mem, t, s.threads[t]);
      State(left.mem, s.threads[t := left.pc])
  }

  ghost predicate Follows(states: seq<State>, moves: seq<Move>, i: nat)
    requires i + 1 < |states| && i < |moves|
  {
    Enabled(states[i], moves[i]) && states[i + 1] == Do(states[i], moves[i])
  }

  /** states[0] is initial and every state follows from the one before by an enabled move. */
  ghost predicate IsRun(states: seq<State>, moves: seq<Move>) {
    && |states| == |moves| + 1
    && Init(states[0])
    && forall i :: 0 <= i < |moves| ==> Follows(states, moves, i)
  }

  // ----- the account the record is held to -----

  /** What an update writes over a record when it runs with nobody else writing. */
  function Wrote(u: Update, r: Record): (w: Record)
    requires |r| == SLOTS
    ensures |w| == SLOTS
  {
    match u
    case Apply(paths, _) => seq(SLOTS, i requires 0 <= i < SLOTS => PathPayload(paths, i))
    case Forget(m) =>
      seq(SLOTS, i requires 0 <= i < SLOTS => if r[i].monitor == m then EMPTY else r[i])
  }

  /**
   The last commit that took the token with the forgets since, and whether anybody has been
   turned away (or a leftover flag inherited) since that commit.
   */
  datatype Account = Account(record: Record, spoiled: bool)

  function Replay(h: seq<Event>): (a: Account)
    ensures |a.record| == SLOTS
  {
    if h == [] then Account(Nothing(), false)
    else
      var a := Replay(h[..|h| - 1]);
      match h[|h| - 1]
      case Missed(_) => a.(spoiled := true)
      case Took(Apply(p, n), flagged) => Account(Wrote(Apply(p, n), a.record), flagged)
      case Took(Forget(m), flagged) => Account(Wrote(Forget(m), a.record), a.spoiled || flagged)
  }

  function Outcome(h: seq<Event>): (r: Record)
    ensures |r| == SLOTS
  {
    var a := Replay(h);
    if a.spoiled then Nothing() else a.record
  }
}
