/** What every step of the update protocol keeps. */
module UpdateProtocolProofs {
  import opened Prelude
  import opened Modes
  import opened ModePush
  import opened Session
  import opened SessionProofs
  import opened Dispatch
  import opened DispatchProofs
  import opened PoolProofs
  import opened RestartProofs
  import opened UpdateProtocol

  // ----- queues -----

  /** Carrying t out makes sense: a plug finds the connector empty, an unplug finds its monitor, and a
      push finds the incarnation it was issued to and stays within that one's create-time list. */
  ghost predicate Fits(v: map<u64, Known>, t: Task) {
    match t.effect
    case PlugMonitor(s, _, _, _, _, _, _) => s !in v
    case UnplugMonitor(s) => s in v
    case PushModes(s, seqNo, targets) =>
      s in v && v[s].birth < seqNo && Publishable(targets, v[s].shown.modes)
    case PersistState(_) => true
  }

  ghost predicate Runs(v: map<u64, Known>, q: seq<Task>)
    decreases |q|
  {
    q == [] || (Fits(v, q[0]) && Runs(AfterTask(v, q[0]), q[1..]))
  }

  /** Stamps never fall, and a push's id is its stamp and larger than every stamp before it. */
  ghost predicate Ordered(q: seq<Task>, bound: nat) {
    && (forall i :: 0 <= i < |q| ==> q[i].stamp <= bound)
    && (forall i :: 0 <= i < |q| && q[i].effect.PushModes? ==> q[i].effect.updateSeq == q[i].stamp)
    && (forall i, j :: 0 <= i < j < |q| ==>
          q[i].stamp <= q[j].stamp && (q[j].effect.PushModes? ==> q[i].stamp < q[j].stamp))
  }

  predicate Touches(q: seq<Task>, s: u64)
    decreases |q|
  {
    q != [] && (NamesIt(q[0].effect, s) || Touches(q[1..], s))
  }

  lemma {:induction false} SumOfQueues(v: map<u64, Known>, a: seq<Task>, b: seq<Task>)
    ensures AfterTasks(v, a + b) == AfterTasks(AfterTasks(v, a), b)
    ensures Runs(v, a + b) <==> Runs(v, a) && Runs(AfterTasks(v, a), b)
    decreases |a|
  {
    if a == [] {
      assert a + b == b;
    } else {
      SumOfQueues(AfterTask(v, a[0]), a[1..], b);
      assert (a + b)[1..] == a[1..] + b;
    }
  }

  /** The same monitors with the same create-time lists. */
  predicate SameShape(v: map<u64, Known>, w: map<u64, Known>) {
    && v.Keys == w.Keys
    && forall s :: s in v ==> v[s].birth == w[s].birth && v[s].shown.modes == w[s].shown.modes
  }

  lemma {:induction false} RunsLooksAtShape(v: map<u64, Known>, w: map<u64, Known>, q: seq<Task>)
    requires SameShape(v, w) && Runs(v, q)
    ensures Runs(w, q)
    decreases |q|
  {
    if q != [] { RunsLooksAtShape(AfterTask(v, q[0]), AfterTask(w, q[0]), q[1..]); }
  }

  lemma {:induction false} UntouchedStays(v: map<u64, Known>, q: seq<Task>, s: u64)
    requires !Touches(q, s)
    ensures s in AfterTasks(v, q) <==> s in v
    ensures s in v ==> AfterTasks(v, q)[s] == v[s]
    decreases |q|
  {
    if q != [] { UntouchedStays(AfterTask(v, q[0]), q[1..], s); }
  }

  lemma ReplaceStep(v: map<u64, Known>, t: Task, s: u64, k: Known)
    requires s in v
    ensures NamesIt(t.effect, s) ==> AfterTask(v[s := k], t) == AfterTask(v, t)
    ensures !NamesIt(t.effect, s) ==> AfterTask(v[s := k], t) == AfterTask(v, t)[s := k] && s in AfterTask(v, t)
  {
  }

  /** What is known of s now matters only as far as the queue leaves s alone. */
  lemma {:induction false} ReplaceBeforeQueue(v: map<u64, Known>, q: seq<Task>, s: u64, k: Known)
    requires s in v
    ensures AfterTasks(v[s := k], q) == if Touches(q, s) then AfterTasks(v, q) else AfterTasks(v, q)[s := k]
    decreases |q|
  {
    if q != [] {
      ReplaceStep(v, q[0], s, k);
      if !NamesIt(q[0].effect, s) { ReplaceBeforeQueue(AfterTask(v, q[0]), q[1..], s, k); }
    }
  }

  /** A session the queue plugs or unplugs and leaves there was plugged by the queue. */
  lemma {:induction false} TouchedIsYounger(v: map<u64, Known>, q: seq<Task>, s: u64, lo: nat)
    requires Touches(q, s) && s in AfterTasks(v, q)
    requires forall i :: 0 <= i < |q| ==> q[i].stamp >= lo
    ensures AfterTasks(v, q)[s].birth >= lo
    decreases |q|
  {
    if Touches(q[1..], s) {
      TouchedIsYounger(AfterTask(v, q[0]), q[1..], s, lo);
    } else {
      UntouchedStays(AfterTask(v, q[0]), q[1..], s);
    }
  }

  function ShownOf(k: map<u64, Known>): map<u64, Shown> { map s | s in k :: k[s].shown }

  lemma {:induction false} StampedQueue(k: map<u64, Known>, effects: seq<Effect>, stamp: nat)
    requires Proper(ShownOf(k), effects)
    ensures Runs(k, Stamped(effects, stamp))
    ensures ShownOf(AfterTasks(k, Stamped(effects, stamp))) == Fold(ShownOf(k), effects)
    decreases |effects|
  {
    if effects != [] {
      var t := Task(effects[0], stamp);
      assert ShownOf(AfterTask(k, t)) == Carried(ShownOf(k), effects[0]);
      StampedQueue(AfterTask(k, t), effects[1..], stamp);
      assert Stamped(effects, stamp)[1..] == Stamped(effects[1..], stamp);
    }
  }

  lemma {:induction false} StampedBirths(k: map<u64, Known>, effects: seq<Effect>, stamp: nat, s: u64)
    ensures s in AfterTasks(k, Stamped(effects, stamp)) ==>
              if Names(effects, s) then AfterTasks(k, Stamped(effects, stamp))[s].birth == stamp
              else s in k && AfterTasks(k, Stamped(effects, stamp))[s] == k[s]
    decreases |effects|
  {
    if effects != [] {
      var t := Task(effects[0], stamp);
      StampedBirths(AfterTask(k, t), effects[1..], stamp, s);
      assert Stamped(effects, stamp)[1..] == Stamped(effects[1..], stamp);
      assert effects == [effects[0]] + effects[1..];
      NamesInSum([effects[0]], effects[1..], s);
      assert Names([effects[0]], s) <==> NamesIt(effects[0], s) by { assert [effects[0]][0] == effects[0]; }
    }
  }

  // ----- the invariant -----

  /** Stamps, births and the queue agree with the table: once everything queued is carried out, the
      shell shows exactly the table's sessions with the table's lists. */
  ghost predicate QueueInv(st: State) {
    && Runs(Seen(st), Jobs(st))
    && AfterTasks(Seen(st), Jobs(st)) == Listed(st)
    && Ordered(Jobs(st), st.dev.table.updateSeq)
    && st.birth.Keys == st.dev.table.monitors.Keys
    && forall s :: s in st.birth ==> st.birth[s] <= st.dev.table.updateSeq
  }

  /** The worker's push and the monitor it works on. */
  ghost predicate WorkerInv(st: State) {
    var w := st.worker;
    !w.Idle? ==>
      && w.s in st.os
      && st.os[w.s].shown == (if w.Reporting? && w.result.Applied? then Shown(w.before.modes, w.targets) else w.before)
      && (w.Reporting? && w.result.Blocked? ==>
            w.result.supersetIdx < |w.before.modes| && w.before.modes[w.result.supersetIdx] !in w.targets)
  }

  predicate IsPush(t: Task, s: u64) { t.effect.PushModes? && t.effect.sessionId == s }

  ghost predicate PushesOk(m: Monitor, birth: nat, jobs: seq<Task>, s: u64) {
    && birth <= m.settledSeq
    && (forall i :: 0 <= i < |jobs| && IsPush(jobs[i], s) && birth < jobs[i].stamp ==>
          && m.settledSeq < jobs[i].stamp
          && m.pendingTargets.Some? && jobs[i].stamp <= m.pendingTargets.value.seqNo)
    && (m.pendingTargets.Some? ==>
          exists i :: 0 <= i < |jobs| && CarriesPending(jobs[i], s, m.pendingTargets.value))
  }

  predicate CarriesPending(t: Task, s: u64, p: PendingTargets) { t.effect == PushModes(s, p.seqNo, p.targets) }

  /** A remembered refusal names a create-time mode the refused list leaves out. */
  predicate RefusalOk(m: Monitor) {
    m.blocked.Some? ==>
      m.blocked.value.supersetIdx < |m.modes| && m.modes[m.blocked.value.supersetIdx] !in m.blocked.value.targets
  }

  ghost predicate MonitorsInv(st: State) {
    forall s :: s in st.dev.table.monitors ==>
      && s in st.birth
      && PushesOk(st.dev.table.monitors[s], st.birth[s], Jobs(st), s)
      && RefusalOk(st.dev.table.monitors[s])
  }

  /** The newest blob is current exactly when no start has left it behind; after one that did, there is no
      pool left to bring up, or some member is live, or the blob is one no device would write, so the next
      start cannot make up for it. */
  ghost predicate StoreInv(st: State) {
    var blob := Recorded(Newest(st.stored, Effects(st.queue)));
    && (blob == Saved(st.dev) <==> !st.unrecorded)
    && (st.unrecorded ==>
          || st.dev.pool.count == 0 || st.dev.table.monitors != map[]
          || !TakenWhole(blob, st.dev.cfg.TableCap()))
  }

  ghost predicate Inv(st: State) {
    DeviceInv(st.dev) && QueueInv(st) && WorkerInv(st) && MonitorsInv(st) && StoreInv(st)
  }

  lemma InitialInv(st: State)
    requires Initial(st)
    ensures Inv(st)
  {
    NewDeviceInv(st.dev.cfg, st.stored);
    BlobIsTakenWhole(st.dev.cfg, st.stored);
    assert Effects(st.queue) == [];
  }

  // ----- requests -----

  lemma JobsGrow(st: State, dev: Device, effects: seq<Effect>)
    ensures Jobs(Enqueued(st, dev, effects)) == Jobs(st) + Stamped(effects, dev.table.updateSeq)
  {
    if !st.worker.Idle? {
      var head := [Task(PushModes(st.worker.s, st.worker.seqNo, st.worker.targets), st.worker.seqNo)];
      assert head + (st.queue + Stamped(effects, dev.table.updateSeq)) ==
             (head + st.queue) + Stamped(effects, dev.table.updateSeq);
    }
  }

  lemma OrderedGrows(q: seq<Task>, effects: seq<Effect>, bound: nat)
    requires Ordered(q, bound) && forall i :: 0 <= i < |effects| ==> !effects[i].PushModes?
    ensures Ordered(q + Stamped(effects, bound), bound)
  {
  }

  lemma {:induction false} ProperPushesNothing(v: map<u64, Shown>, effects: seq<Effect>)
    requires Proper(v, effects)
    ensures forall i :: 0 <= i < |effects| ==> !effects[i].PushModes?
    decreases |effects|
  {
    if effects != [] {
      ProperPushesNothing(Carried(v, effects[0]), effects[1..]);
      assert forall i :: 0 < i < |effects| ==> effects[i] == effects[1..][i - 1];
    }
  }

  lemma NewestGrows(stored: Option<seq<u8>>, q: seq<Task>, effects: seq<Effect>, stamp: nat)
    ensures Newest(stored, Effects(q + Stamped(effects, stamp))) == Newest(Newest(stored, Effects(q)), effects)
  {
    assert Effects(q + Stamped(effects, stamp)) == Effects(q) + effects;
    NewestOfSum(stored, Effects(q), effects);
  }

  lemma StoreGrows(st: State, dev: Device, effects: seq<Effect>)
    requires StoreInv(st) && RecordsAll(st.dev, effects, dev)
    ensures StoreInv(Enqueued(st, dev, effects))
  {
    NewestGrows(st.stored, st.queue, effects, dev.table.updateSeq);
    if !Snapshots(effects) { NoSnapshotNoChange(Newest(st.stored, Effects(st.queue)), effects); }
  }

  /** A start queues no snapshot, and may leave the registry behind. */
  lemma StartKeepsStore(st: State, nowMs: nat, select: u64 -> Result<u64>)
    requires StoreInv(st) && DeviceInv(st.dev) && st.dev.table.monitors == map[]
    ensures StoreInv(Started(st, nowMs, select))
  {
    var (dev, effects) := AfterStartup(st.dev, nowMs, select);
    StartupTakesNoSnapshot(st.dev, nowMs, select);
    NewestGrows(st.stored, st.queue, effects, dev.table.updateSeq);
    NoSnapshotNoChange(Newest(st.stored, Effects(st.queue)), effects);
    StartupSavesExactly(st.dev, nowMs, select);
    StartupMirrors(st.dev, nowMs, select);
    SavedIsWhole(dev);
  }

  lemma RequestKeepsQueue(st: State, dev: Device, effects: seq<Effect>)
    requires QueueInv(st) && dev.table.updateSeq == st.dev.table.updateSeq
    requires Mirrors(st.dev.table.monitors, effects, dev.table.monitors, dev.table.updateSeq)
    ensures QueueInv(Enqueued(st, dev, effects))
  {
    var st', tasks := Enqueued(st, dev, effects), Stamped(effects, dev.table.updateSeq);
    JobsGrow(st, dev, effects);
    SumOfQueues(Seen(st), Jobs(st), tasks);
    assert ShownOf(Listed(st)) == View(st.dev.table.monitors);
    StampedQueue(Listed(st), effects, dev.table.updateSeq);
    ProperPushesNothing(View(st.dev.table.monitors), effects);
    OrderedGrows(Jobs(st), effects, dev.table.updateSeq);
    var k := AfterTasks(Listed(st), tasks);
    assert ShownOf(k) == View(dev.table.monitors);
    assert Seen(st') == Seen(st);
    forall s | s in k ensures k[s].birth <= dev.table.updateSeq {
      StampedBirths(Listed(st), effects, dev.table.updateSeq, s);
    }
    ListedIs(st', k);
  }

  lemma ListedIs(st: State, k: map<u64, Known>)
    requires ShownOf(k) == View(st.dev.table.monitors) && st.birth == Births(k)
    ensures Listed(st) == k
  {
    forall s | s in k ensures s in Listed(st) && Listed(st)[s] == k[s] {
      assert s in ShownOf(k) && ShownOf(k)[s] == k[s].shown;
    }
    assert k.Keys == ShownOf(k).Keys;
  }

  lemma PushesOkGrows(m: Monitor, birth: nat, jobs: seq<Task>, more: seq<Task>, s: u64)
    requires PushesOk(m, birth, jobs, s) && forall i :: 0 <= i < |more| ==> !more[i].effect.PushModes?
    ensures PushesOk(m, birth, jobs + more, s)
  {
    if m.pendingTargets.Some? {
      var i :| 0 <= i < |jobs| && CarriesPending(jobs[i], s, m.pendingTargets.value);
      assert CarriesPending((jobs + more)[i], s, m.pendingTargets.value);
    }
  }

  /** A monitor just created listens to nothing issued so far. */
  lemma PushesOkWhenNew(m: Monitor, birth: nat, jobs: seq<Task>, s: u64, bound: nat)
    requires JustCreated(m, bound) && birth == bound && Ordered(jobs, bound)
    ensures PushesOk(m, birth, jobs, s)
  {
  }

  lemma RequestKeepsMonitors(st: State, dev: Device, effects: seq<Effect>)
    requires QueueInv(st) && MonitorsInv(st) && dev.table.updateSeq == st.dev.table.updateSeq
    requires Mirrors(st.dev.table.monitors, effects, dev.table.monitors, dev.table.updateSeq)
    requires QueueInv(Enqueued(st, dev, effects))
    ensures MonitorsInv(Enqueued(st, dev, effects))
  {
    var st', tasks := Enqueued(st, dev, effects), Stamped(effects, dev.table.updateSeq);
    JobsGrow(st, dev, effects);
    ProperPushesNothing(View(st.dev.table.monitors), effects);
    forall s | s in dev.table.monitors
      ensures s in st'.birth
      ensures PushesOk(dev.table.monitors[s], st'.birth[s], Jobs(st'), s) && RefusalOk(dev.table.monitors[s])
    {
      StampedBirths(Listed(st), effects, dev.table.updateSeq, s);
      if Names(effects, s) {
        PushesOkWhenNew(dev.table.monitors[s], st'.birth[s], Jobs(st'), s, dev.table.updateSeq);
      } else {
        PushesOkGrows(dev.table.monitors[s], st.birth[s], Jobs(st), tasks, s);
      }
    }
  }

  lemma RequestKeepsInv(st: State, dev: Device, effects: seq<Effect>)
    requires Inv(st) && Requests(st.dev, dev, effects)
    ensures Inv(Enqueued(st, dev, effects))
  {
    RequestKeepsQueue(st, dev, effects);
    RequestKeepsMonitors(st, dev, effects);
    StoreGrows(st, dev, effects);
  }

  /** A start is a request as far as plugs go. */
  lemma StartKeepsInv(st: State, nowMs: nat, select: u64 -> Result<u64>) returns (st': State)
    requires Inv(st) && st.dev.table.monitors == map[]
    ensures st' == Started(st, nowMs, select) && Inv(st')
  {
    var (dev, effects) := AfterStartup(st.dev, nowMs, select);
    StartupMirrors(st.dev, nowMs, select);
    RequestKeepsQueue(st, dev, effects);
    RequestKeepsMonitors(st, dev, effects);
    StartKeepsStore(st, nowMs, select);
    st' := Started(st, nowMs, select);
    SameWorkerSameMonitors(st, Enqueued(st, dev, effects));
    OnlyTheFlagDiffers(Enqueued(st, dev, effects), st');
    AllTogether(st');
  }

  lemma SameWorkerSameMonitors(st: State, st': State)
    requires WorkerInv(st) && st'.worker == st.worker && st'.os == st.os
    ensures WorkerInv(st')
  {
  }

  lemma AllTogether(st: State)
    requires DeviceInv(st.dev) && QueueInv(st) && WorkerInv(st) && MonitorsInv(st) && StoreInv(st)
    ensures Inv(st)
  {
  }

  lemma OnlyTheFlagDiffers(st: State, st': State)
    requires st' == st.(unrecorded := st'.unrecorded) && QueueInv(st) && MonitorsInv(st) && WorkerInv(st)
    ensures QueueInv(st') && MonitorsInv(st') && WorkerInv(st')
  {
    assert Jobs(st') == Jobs(st) && Seen(st') == Seen(st) && Listed(st') == Listed(st);
  }

  // ----- UPDATE_MODES -----

  /** The two things an UPDATE_MODES can do: nothing but drop a stale refusal, or queue one push. */
  ghost predicate UpdateShape(before: Table, s: u64, token: nat, after: Table, effects: seq<Effect>) {
    if effects == [] then
      && after.updateSeq == before.updateSeq
      && (after.monitors == before.monitors
          || (s in before.monitors
              && after.monitors == before.monitors[s := WithoutStaleBlock(before.monitors[s], token)]))
    else
      && s in before.monitors && s in after.monitors
      && var m := after.monitors[s];
      && after.updateSeq == before.updateSeq + 1
      && m.settledSeq == before.monitors[s].settledSeq && m.modes == before.monitors[s].modes
      && m.pendingTargets.Some? && m.pendingTargets.value.seqNo == after.updateSeq && m.blocked.None?
      && after.monitors == before.monitors[s := m]
      && effects == [PushModes(s, after.updateSeq, m.pendingTargets.value.targets)]
  }

  lemma UpdateHasShape(t: Table, s: u64, specs: seq<ModeSpec>, caps: Caps, token: nat, offered: nat, count: nat)
    requires MonitorsOk(t) && s in t.monitors && t.monitors[s].modes != []
    ensures var (t', r) := Updated(t, s, specs, caps, token);
            UpdateShape(t, s, token, t', UpdateAnswer(offered, s, count, r).1)
  {
    UpdateOutcome(t, s, specs, caps, token);
    AskOutcome(WithoutStaleBlock(t.monitors[s], token), specs, caps, t.updateSeq);
  }

  lemma AfterUpdateHasShape(dev: Device, handshaken: bool, s: u64, specs: seq<ModeSpec>, count: u32, token: nat)
    requires DeviceInv(dev)
    requires s in dev.table.monitors ==> dev.table.monitors[s].modes != []
    ensures var (dev', _, effects) := AfterUpdate(dev, handshaken, s, specs, count, token);
            UpdateShape(dev.table, s, token, dev'.table, effects)
  {
    if handshaken && CountOk(count, specs) && s in dev.table.monitors {
      UpdateHasShape(dev.table, s, specs[..count], dev.cfg.caps, token, Offered(dev.table, s), count);
    }
  }

  lemma PendingIsPublishable(t: Table, s: u64)
    requires TableInv(t) && s in t.monitors && t.monitors[s].pendingTargets.Some?
    ensures Publishable(t.monitors[s].pendingTargets.value.targets, t.monitors[s].modes)
  {
    assert MonitorOk(t.monitors[s], s, t.connectors, t.updateSeq);
  }

  lemma UpdateListsTheSame(st: State, dev: Device, effects: seq<Effect>)
    requires st.birth.Keys == st.dev.table.monitors.Keys
    requires View(dev.table.monitors) == View(st.dev.table.monitors)
    requires AfterTasks(Listed(st), Stamped(effects, dev.table.updateSeq)) == Listed(st)
    ensures var st' := Enqueued(st, dev, effects);
            st'.birth == st.birth && Seen(st') == Seen(st) && Listed(st') == Listed(st)
  {
    var st' := Enqueued(st, dev, effects);
    assert st'.birth == Births(Listed(st)) == st.birth;
    ListedIs(st', Listed(st)) by { assert ShownOf(Listed(st)) == View(st.dev.table.monitors); }
  }

  lemma QuietUpdateKeepsQueue(st: State, dev: Device)
    requires QueueInv(st) && View(dev.table.monitors) == View(st.dev.table.monitors)
    requires dev.table.updateSeq == st.dev.table.updateSeq
    ensures QueueInv(Enqueued(st, dev, [])) && Enqueued(st, dev, []).birth == st.birth
    ensures Jobs(Enqueued(st, dev, [])) == Jobs(st)
  {
    JobsGrow(st, dev, []);
    assert Jobs(st) + [] == Jobs(st);
    UpdateListsTheSame(st, dev, []);
  }

  lemma QuietUpdateKeepsMonitors(st: State, dev: Device, s: u64, token: nat)
    requires MonitorsInv(st) && UpdateShape(st.dev.table, s, token, dev.table, [])
    requires Enqueued(st, dev, []).birth == st.birth && Jobs(Enqueued(st, dev, [])) == Jobs(st)
    ensures MonitorsInv(Enqueued(st, dev, []))
  {
    forall r | r in dev.table.monitors
      ensures r in st.birth
      ensures PushesOk(dev.table.monitors[r], st.birth[r], Jobs(st), r) && RefusalOk(dev.table.monitors[r])
    {
      assert PushesOk(st.dev.table.monitors[r], st.birth[r], Jobs(st), r) && RefusalOk(st.dev.table.monitors[r]);
    }
  }

  lemma OnePush(k: map<u64, Known>, t: Task)
    requires t.effect.PushModes?
    ensures AfterTasks(k, [t]) == k && (Runs(k, [t]) <==> Fits(k, t))
  {
    assert [t][1..] == [];
  }

  lemma QueuedUpdateKeepsQueue(st: State, dev: Device, s: u64, token: nat, effects: seq<Effect>)
    requires QueueInv(st) && TableInv(dev.table)
    requires UpdateShape(st.dev.table, s, token, dev.table, effects) && effects != []
    requires View(dev.table.monitors) == View(st.dev.table.monitors)
    ensures QueueInv(Enqueued(st, dev, effects)) && Enqueued(st, dev, effects).birth == st.birth
  {
    var t := Task(effects[0], dev.table.updateSeq);
    assert Stamped(effects, dev.table.updateSeq) == [t];
    OnePush(Listed(st), t);
    PushFits(st, dev, s, token, effects);
    JobsGrow(st, dev, effects);
    SumOfQueues(Seen(st), Jobs(st), [t]);
    UpdateListsTheSame(st, dev, effects);
    OrderedWithPush(Jobs(st), t, st.dev.table.updateSeq);
  }

  lemma PushFits(st: State, dev: Device, s: u64, token: nat, effects: seq<Effect>)
    requires QueueInv(st) && TableInv(dev.table)
    requires UpdateShape(st.dev.table, s, token, dev.table, effects) && effects != []
    ensures Fits(Listed(st), Task(effects[0], dev.table.updateSeq))
  {
    PendingIsPublishable(dev.table, s);
    assert s in st.birth && st.birth[s] <= st.dev.table.updateSeq;
  }

  lemma OrderedWithPush(q: seq<Task>, t: Task, bound: nat)
    requires Ordered(q, bound) && t.effect.PushModes? && t.stamp == t.effect.updateSeq == bound + 1
    ensures Ordered(q + [t], bound + 1)
  {
  }

  lemma PushesOkWithOwn(m: Monitor, m': Monitor, birth: nat, jobs: seq<Task>, s: u64, bound: nat)
    requires PushesOk(m, birth, jobs, s) && Ordered(jobs, bound) && m.settledSeq <= bound
    requires m'.settledSeq == m.settledSeq && m'.pendingTargets.Some? && m'.pendingTargets.value.seqNo == bound + 1
    ensures PushesOk(m', birth, jobs + [Task(PushModes(s, bound + 1, m'.pendingTargets.value.targets), bound + 1)], s)
  {
    var jobs' := jobs + [Task(PushModes(s, bound + 1, m'.pendingTargets.value.targets), bound + 1)];
    assert CarriesPending(jobs'[|jobs|], s, m'.pendingTargets.value);
  }

  lemma PushesOkWithOther(m: Monitor, birth: nat, jobs: seq<Task>, t: Task, s: u64)
    requires PushesOk(m, birth, jobs, s) && !IsPush(t, s)
    ensures PushesOk(m, birth, jobs + [t], s)
  {
    if m.pendingTargets.Some? {
      var i :| 0 <= i < |jobs| && CarriesPending(jobs[i], s, m.pendingTargets.value);
      assert CarriesPending((jobs + [t])[i], s, m.pendingTargets.value);
    }
  }

  lemma QueuedUpdateKeepsOne(t: Table, t': Table, birth: map<u64, nat>, jobs: seq<Task>, s: u64, token: nat,
                             effects: seq<Effect>, r: u64)
    requires UpdateShape(t, s, token, t', effects) && effects != []
    requires r in t'.monitors && r in birth && r in t.monitors && t.monitors[s].settledSeq <= t.updateSeq
    requires Ordered(jobs, t.updateSeq) && PushesOk(t.monitors[r], birth[r], jobs, r) && RefusalOk(t.monitors[r])
    ensures PushesOk(t'.monitors[r], birth[r], jobs + [Task(effects[0], t'.updateSeq)], r) && RefusalOk(t'.monitors[r])
  {
    if r == s {
      PushesOkWithOwn(t.monitors[r], t'.monitors[r], birth[r], jobs, s, t.updateSeq);
    } else {
      PushesOkWithOther(t.monitors[r], birth[r], jobs, Task(effects[0], t'.updateSeq), r);
    }
  }

  lemma QueuedUpdateKeepsMonitors(st: State, dev: Device, s: u64, token: nat, effects: seq<Effect>)
    requires QueueInv(st) && MonitorsInv(st) && MonitorsOk(st.dev.table)
    requires UpdateShape(st.dev.table, s, token, dev.table, effects) && effects != []
    requires Enqueued(st, dev, effects).birth == st.birth
    ensures MonitorsInv(Enqueued(st, dev, effects))
  {
    var jobs := Jobs(st) + [Task(effects[0], dev.table.updateSeq)];
    JobsGrow(st, dev, effects);
    assert Jobs(Enqueued(st, dev, effects)) == jobs by {
      assert Stamped(effects, dev.table.updateSeq) == [Task(effects[0], dev.table.updateSeq)];
    }
    SettledIsIssued(st, s);
    forall r | r in dev.table.monitors
      ensures r in st.birth && PushesOk(dev.table.monitors[r], st.birth[r], jobs, r) && RefusalOk(dev.table.monitors[r])
    {
      QueuedUpdateKeepsOne(st.dev.table, dev.table, st.birth, Jobs(st), s, token, effects, r);
    }
  }

  lemma SettledIsIssued(st: State, s: u64)
    requires MonitorsOk(st.dev.table) && s in st.dev.table.monitors
    ensures st.dev.table.monitors[s].settledSeq <= st.dev.table.updateSeq
  {
    assert MonitorOk(st.dev.table.monitors[s], s, st.dev.table.connectors, st.dev.table.updateSeq);
  }

  lemma UpdateStepKeepsInv(st: State, dev: Device, s: u64, token: nat, effects: seq<Effect>)
    requires Inv(st) && DeviceInv(dev) && UpdateShape(st.dev.table, s, token, dev.table, effects)
    requires View(dev.table.monitors) == View(st.dev.table.monitors) && RecordsAll(st.dev, effects, dev)
    ensures Inv(Enqueued(st, dev, effects))
  {
    if effects == [] {
      QuietUpdateKeepsQueue(st, dev);
      QuietUpdateKeepsMonitors(st, dev, s, token);
    } else {
      QueuedUpdateKeepsQueue(st, dev, s, token, effects);
      QueuedUpdateKeepsMonitors(st, dev, s, token, effects);
    }
    StoreGrows(st, dev, effects);
  }

  lemma UpdateFacts(dev: Device, a: Action)
    requires DeviceInv(dev) && a.Update? && (a.s in dev.table.monitors ==> dev.table.monitors[a.s].modes != [])
    ensures var (dev', effects) := Answer(dev, a);
            && DeviceInv(dev') && UpdateShape(dev.table, a.s, a.token, dev'.table, effects)
            && View(dev'.table.monitors) == View(dev.table.monitors) && RecordsAll(dev, effects, dev')
  {
    UpdateMirrors(dev, a.handshaken, a.s, a.specs, a.count, a.token);
    AfterUpdateHasShape(dev, a.handshaken, a.s, a.specs, a.count, a.token);
  }

  lemma UpdateKeepsProtocol(st: State, a: Action) returns (st': State)
    requires Inv(st) && Enabled(st, a) && a.Update?
    ensures st' == Next(st, a) && Inv(st')
  {
    UpdateFacts(st.dev, a);
    var dev, effects := Answer(st.dev, a).0, Answer(st.dev, a).1;
    st' := Enqueued(st, dev, effects);
    UpdateStepKeepsInv(st, dev, a.s, a.token, effects);
  }

  // ----- the worker takes a task -----

  lemma OrderedTail(q: seq<Task>, bound: nat)
    requires Ordered(q, bound) && q != []
    ensures Ordered(q[1..], bound)
    ensures forall i :: 0 <= i < |q| - 1 ==> q[1..][i].stamp >= q[0].stamp
  {
  }

  lemma PushesOkTail(m: Monitor, birth: nat, q: seq<Task>, s: u64)
    requires PushesOk(m, birth, q, s) && q != [] && !q[0].effect.PushModes?
    ensures PushesOk(m, birth, q[1..], s)
  {
    if m.pendingTargets.Some? {
      var i :| 0 <= i < |q| && CarriesPending(q[i], s, m.pendingTargets.value);
      assert CarriesPending(q[1..][i - 1], s, m.pendingTargets.value);
    }
  }

  lemma TakenIsSeen(st: State, works: bool, world: World)
    requires st.worker.Idle? && st.queue != [] && !st.queue[0].effect.PushModes?
    ensures Seen(Taken(st, works, world)) == AfterTask(Seen(st), st.queue[0])
    ensures Jobs(Taken(st, works, world)) == st.queue[1..]
  {
  }

  lemma TakeKeepsQueue(st: State, works: bool, world: World)
    requires QueueInv(st) && st.worker.Idle? && st.queue != [] && !st.queue[0].effect.PushModes?
    ensures QueueInv(Taken(st, works, world))
  {
    TakenIsSeen(st, works, world);
    OrderedTail(st.queue, st.dev.table.updateSeq);
    assert Listed(Taken(st, works, world)) == Listed(st);
  }

  lemma TakeKeepsMonitors(st: State, works: bool, world: World)
    requires MonitorsInv(st) && st.worker.Idle? && st.queue != [] && !st.queue[0].effect.PushModes?
    ensures MonitorsInv(Taken(st, works, world))
  {
    TakenIsSeen(st, works, world);
    forall s | s in st.dev.table.monitors
      ensures s in st.birth && PushesOk(st.dev.table.monitors[s], st.birth[s], st.queue[1..], s)
    {
      PushesOkTail(st.dev.table.monitors[s], st.birth[s], st.queue, s);
    }
  }

  lemma NewestTail(stored: Option<seq<u8>>, q: seq<Task>)
    requires q != []
    ensures Newest(stored, Effects(q)) ==
            Newest(if q[0].effect.PersistState? then Some(q[0].effect.blob) else stored, Effects(q[1..]))
  {
    assert Effects(q)[1..] == Effects(q[1..]);
  }

  /** Everything but a push is done in one step. */
  lemma TakeKeepsInv(st: State, works: bool, world: World)
    requires Inv(st) && st.worker.Idle? && st.queue != [] && !st.queue[0].effect.PushModes?
    ensures Inv(Taken(st, works, world))
  {
    TakeKeepsQueue(st, works, world);
    TakeKeepsMonitors(st, works, world);
    NewestTail(st.stored, st.queue);
  }

  /** A push moves from the queue to the worker; it is still a job, and what was seen stands. */
  ghost predicate PickedUp(st: State, st': State, e: Effect) {
    && e.PushModes? && st.queue != []
    && st'.dev == st.dev && st'.birth == st.birth && st'.stored == st.stored && st'.unrecorded == st.unrecorded
    && st'.queue == st.queue[1..]
    && !st'.worker.Idle? && st'.worker.s == e.sessionId && st'.worker.seqNo == e.updateSeq
    && st'.worker.targets == e.targets
    && e.sessionId in st.os && st'.worker.before == st.os[e.sessionId].shown
    && st'.os.Keys == st.os.Keys
    && (forall s :: s in st.os ==> st'.os[s].birth == st.os[s].birth && st'.os[s].shown.modes == st.os[s].shown.modes)
    && (forall s :: s in st.os && s != e.sessionId ==> st'.os[s] == st.os[s])
  }

  lemma PickedUpIsUnmoved(st: State, st': State, e: Effect)
    requires QueueInv(st) && st.worker.Idle? && st.queue != [] && st.queue[0].effect == e && PickedUp(st, st', e)
    ensures Unmoved(st, st')
  {
    assert st.queue[0].stamp == e.updateSeq;
    assert Jobs(st') == [st.queue[0]] + st.queue[1..] == Jobs(st);
    assert Seen(st') == Seen(st);
    assert Listed(st') == Listed(st);
  }

  lemma PickedUpKeepsInv(st: State, st': State, e: Effect)
    requires Inv(st) && st.worker.Idle? && st.queue != [] && st.queue[0].effect == e && PickedUp(st, st', e)
    requires WorkerInv(st')
    ensures Inv(st')
  {
    PickedUpIsUnmoved(st, st', e);
    UnmovedKeepsQueue(st, st');
    NewestTail(st.stored, st.queue);
  }

  predicate IndexOk(outcome: PushOutcome, superset: seq<Mode>, targets: seq<Mode>) {
    outcome.PushBlocked? ==> outcome.supersetIdx < |superset| && superset[outcome.supersetIdx] !in targets
  }

  /** The push is over in one step; the monitor holds the list if the outcome commits. */
  lemma ReportPicksUp(st: State, e: Effect, outcome: PushOutcome)
    requires st.queue != [] && e.PushModes? && e.sessionId in st.os
    requires IndexOk(outcome, st.os[e.sessionId].shown.modes, e.targets)
    ensures var slot := st.os[e.sessionId];
            var held := if outcome.Commits() then slot.(shown := Shown(slot.shown.modes, e.targets)) else slot;
            var st' := Reports(st.(os := st.os[e.sessionId := held]), e, st.queue[1..], slot.shown, outcome);
            PickedUp(st, st', e) && WorkerInv(st')
  {
  }

  lemma PushPicksUp(st: State, world: World)
    requires st.worker.Idle? && st.queue != [] && st.queue[0].effect.PushModes?
    requires st.queue[0].effect.sessionId in st.os
    ensures var e := st.queue[0].effect;
            var st' := Pushed(st, e, st.queue[1..], world);
            PickedUp(st, st', e) && WorkerInv(st')
  {
    var e := st.queue[0].effect;
    var slot := st.os[e.sessionId];
    assert st.os[e.sessionId := slot] == st.os;
    if e.targets == [] {
      ReportPicksUp(st, e, Failed(0));
    } else if slot.kind.Parked? {
      ReportPicksUp(st, e, ParkedPush(slot.shown.modes, e.targets));
    } else if world.deferred {
      ReportPicksUp(st, e, Deferred(|e.targets|));
    } else if slot.kind.Missing? {
      ReportPicksUp(st, e, Failed(|e.targets|));
    } else {
      GateMeaning(slot.shown.modes, e.targets, world.committed);
      match Gate(slot.shown.modes, e.targets, world.committed) {
        case NotInSuperset => ReportPicksUp(st, e, Failed(|e.targets|));
        case EvictsCommitted(committed, idx) =>
          ReportPicksUp(st, e, PushBlocked(committed, idx, world.token, |e.targets|));
        case _ =>
      }
    }
  }

  lemma TakePushKeepsInv(st: State, works: bool, world: World)
    requires Inv(st) && st.worker.Idle? && st.queue != [] && st.queue[0].effect.PushModes?
    ensures Inv(Taken(st, works, world))
  {
    assert Fits(Seen(st), st.queue[0]);
    PushPicksUp(st, world);
    PickedUpKeepsInv(st, Pushed(st, st.queue[0].effect, st.queue[1..], world), st.queue[0].effect);
  }

  lemma ReturnIsUnmoved(st: State, taken: bool)
    requires WorkerInv(st) && st.worker.Calling?
    ensures Unmoved(st, Returned(st, taken)) && WorkerInv(Returned(st, taken))
  {
    var st' := Returned(st, taken);
    assert Jobs(st') == Jobs(st);
    assert Seen(st') == Seen(st);
  }

  lemma ReturnKeepsInv(st: State, taken: bool)
    requires Inv(st) && st.worker.Calling?
    ensures Inv(Returned(st, taken))
  {
    ReturnIsUnmoved(st, taken);
    UnmovedKeepsQueue(st, Returned(st, taken));
  }

  // ----- the worker settles -----

  function Head(w: Worker): Task
    requires !w.Idle?
  {
    Task(PushModes(w.s, w.seqNo, w.targets), w.seqNo)
  }

  /** The worker's push shows nothing new until it settles. */
  lemma BusyHead(st: State)
    requires QueueInv(st) && !st.worker.Idle?
    ensures Jobs(st)[0] == Head(st.worker) && Jobs(st)[1..] == st.queue
    ensures Fits(Seen(st), Head(st.worker)) && Runs(Seen(st), st.queue)
    ensures AfterTasks(Seen(st), st.queue) == Listed(st)
    ensures Ordered(st.queue, st.dev.table.updateSeq) && st.worker.seqNo <= st.dev.table.updateSeq
    ensures forall i :: 0 <= i < |st.queue| ==> st.queue[i].stamp >= st.worker.seqNo
  {
    assert Jobs(st)[0] == Head(st.worker);
    assert Jobs(st)[1..] == st.queue;
    assert AfterTask(Seen(st), Head(st.worker)) == Seen(st);
    OrderedTail(Jobs(st), st.dev.table.updateSeq);
  }

  /** A push whose incarnation is gone from the table is not listened to. */
  lemma TouchedIsDeaf(st: State)
    requires QueueInv(st) && MonitorsInv(st) && !st.worker.Idle? && Touches(st.queue, st.worker.s)
    ensures !Listens(st.dev.table, st.worker.s, st.worker.seqNo)
  {
    var s := st.worker.s;
    BusyHead(st);
    if s in st.dev.table.monitors {
      TouchedIsYounger(Seen(st), st.queue, s, st.worker.seqNo);
      assert Listed(st)[s].birth == st.birth[s];
    }
  }

  /** Any other is: the table still has the incarnation it was issued to. */
  lemma UntouchedListens(st: State)
    requires QueueInv(st) && MonitorsInv(st) && !st.worker.Idle? && !Touches(st.queue, st.worker.s)
    ensures Listens(st.dev.table, st.worker.s, st.worker.seqNo)
    ensures Listed(st)[st.worker.s] == Seen(st)[st.worker.s]
    ensures st.birth[st.worker.s] < st.worker.seqNo
  {
    var s := st.worker.s;
    BusyHead(st);
    UntouchedStays(Seen(st), st.queue, s);
    assert s in Listed(st) && Listed(st)[s].birth == st.birth[s];
    assert IsPush(Jobs(st)[0], s);
  }

  /** Whether the push's incarnation is still the one in the table. */
  lemma ListensExactly(st: State)
    requires QueueInv(st) && MonitorsInv(st) && !st.worker.Idle?
    ensures Listens(st.dev.table, st.worker.s, st.worker.seqNo) <==> !Touches(st.queue, st.worker.s)
    ensures Listens(st.dev.table, st.worker.s, st.worker.seqNo) ==>
              Listed(st)[st.worker.s] == Seen(st)[st.worker.s] && st.birth[st.worker.s] < st.worker.seqNo
  {
    if Touches(st.queue, st.worker.s) { TouchedIsDeaf(st); } else { UntouchedListens(st); }
  }

  lemma SettleKeepsTable(st: State)
    requires Inv(st) && st.worker.Reporting?
    ensures DeviceInv(SettledNow(st).dev)
  {
    var w := st.worker;
    ListensExactly(st);
    BusyHead(st);
    if !Touches(st.queue, w.s) { assert IsPush(Jobs(st)[0], w.s); }
    SettleKeepsInv(st.dev.table, w.s, w.seqNo, w.result, w.targets);
  }

  lemma SeenAfterSettle(st: State)
    requires st.worker.Reporting? && st.worker.s in st.os
    ensures Seen(SettledNow(st)) ==
            Seen(st)[st.worker.s := Known(st.os[st.worker.s].shown, st.os[st.worker.s].birth)]
  {
  }

  lemma ListedOfSettled(st: State)
    requires st.worker.Reporting? && Listens(st.dev.table, st.worker.s, st.worker.seqNo)
    requires st.worker.targets != []
    ensures var w := st.worker;
            var k := Listed(st)[w.s];
            Listed(SettledNow(st)) ==
            if w.result.Applied? then Listed(st)[w.s := k.(shown := Shown(k.shown.modes, w.targets))] else Listed(st)
  {
    var w := st.worker;
    SettleOutcomeMeaning(st.dev.table, w.s, w.seqNo, w.result, w.targets);
  }

  /** What the worker's push left is what the settle is about to list. */
  lemma SettledIsSeen(st: State)
    requires QueueInv(st) && MonitorsInv(st) && WorkerInv(st) && st.worker.Reporting?
    requires !Touches(st.queue, st.worker.s)
    ensures st.worker.targets != [] && Listens(st.dev.table, st.worker.s, st.worker.seqNo)
    ensures var k := Listed(st)[st.worker.s];
            Known(st.os[st.worker.s].shown, st.os[st.worker.s].birth) ==
            if st.worker.result.Applied? then k.(shown := Shown(k.shown.modes, st.worker.targets)) else k
  {
    ListensExactly(st);
    BusyHead(st);
  }

  /** The durable list follows the OS: the settle moves the table exactly as it moved what is seen. */
  lemma ListedAfterSettle(st: State)
    requires QueueInv(st) && MonitorsInv(st) && WorkerInv(st) && st.worker.Reporting?
    ensures var k := Known(st.os[st.worker.s].shown, st.os[st.worker.s].birth);
            Listed(SettledNow(st)) ==
            if Touches(st.queue, st.worker.s) then Listed(st) else Listed(st)[st.worker.s := k]
  {
    if Touches(st.queue, st.worker.s) {
      TouchedIsDeaf(st);
      assert SettledNow(st).dev.table == st.dev.table;
    } else {
      SettledIsSeen(st);
      ListedOfSettled(st);
      assert Listed(st)[st.worker.s := Listed(st)[st.worker.s]] == Listed(st);
    }
  }

  lemma SettleKeepsQueue(st: State)
    requires QueueInv(st) && MonitorsInv(st) && WorkerInv(st) && st.worker.Reporting?
    ensures QueueInv(SettledNow(st))
  {
    var w, q, v := st.worker, st.queue, Seen(st);
    var k := Known(st.os[w.s].shown, st.os[w.s].birth);
    BusyHead(st);
    SeenAfterSettle(st);
    RunsLooksAtShape(v, v[w.s := k], q);
    ReplaceBeforeQueue(v, q, w.s, k);
    ListedAfterSettle(st);
    SettleOutcomeMeaning(st.dev.table, w.s, w.seqNo, w.result, w.targets);
  }

  lemma PushesOkAfterOther(m: Monitor, birth: nat, jobs: seq<Task>, s: u64)
    requires PushesOk(m, birth, jobs, s) && jobs != []
    requires m.pendingTargets.Some? ==> !CarriesPending(jobs[0], s, m.pendingTargets.value)
    ensures PushesOk(m, birth, jobs[1..], s)
  {
    if m.pendingTargets.Some? {
      var i :| 0 <= i < |jobs| && CarriesPending(jobs[i], s, m.pendingTargets.value);
      assert CarriesPending(jobs[1..][i - 1], s, m.pendingTargets.value);
    }
  }

  lemma PushesOkAfterOwn(t: Table, birth: nat, jobs: seq<Task>, s: u64, result: ModeUpdateResult, published: seq<Mode>)
    requires jobs != [] && IsPush(jobs[0], s) && Ordered(jobs, t.updateSeq)
    requires s in t.monitors && Listens(t, s, jobs[0].stamp) && birth < jobs[0].stamp
    requires PushesOk(t.monitors[s], birth, jobs, s)
    ensures PushesOk(SettledWith(t, s, jobs[0].stamp, result, published).0.monitors[s], birth, jobs[1..], s)
  {
    var m := t.monitors[s];
    SettleOutcomeMeaning(t, s, jobs[0].stamp, result, published);
    assert forall i :: 0 <= i < |jobs| - 1 ==> jobs[1..][i] == jobs[i + 1];
    if !m.Outstanding(jobs[0].stamp) {
      var i :| 0 <= i < |jobs| && CarriesPending(jobs[i], s, m.pendingTargets.value);
      assert CarriesPending(jobs[1..][i - 1], s, m.pendingTargets.value);
    }
  }

  lemma SameStampSameJob(jobs: seq<Task>, bound: nat, i: nat)
    requires Ordered(jobs, bound) && i < |jobs| && jobs[i].effect.PushModes? && jobs[0].stamp == jobs[i].stamp
    ensures i == 0
  {
  }

  lemma SettleKeepsMonitors(st: State)
    requires Inv(st) && st.worker.Reporting?
    ensures MonitorsInv(SettledNow(st))
  {
    var w, st', jobs := st.worker, SettledNow(st), Jobs(st);
    assert jobs[1..] == st.queue == Jobs(st');
    ListensExactly(st);
    SettleOutcomeMeaning(st.dev.table, w.s, w.seqNo, w.result, w.targets);
    forall s | s in st'.dev.table.monitors
      ensures PushesOk(st'.dev.table.monitors[s], st'.birth[s], Jobs(st'), s) && RefusalOk(st'.dev.table.monitors[s])
    {
      var m := st.dev.table.monitors[s];
      assert PushesOk(m, st.birth[s], jobs, s) && RefusalOk(m);
      if s == w.s && Listens(st.dev.table, s, w.seqNo) {
        PushesOkAfterOwn(st.dev.table, st.birth[s], jobs, s, w.result, w.targets);
        RefusalAfterSettle(st);
      } else {
        if m.pendingTargets.Some? && CarriesPending(jobs[0], s, m.pendingTargets.value) { PendingListens(st, s); }
        PushesOkAfterOther(m, st.birth[s], jobs, s);
      }
    }
  }

  lemma PendingListens(st: State, s: u64)
    requires MonitorsOk(st.dev.table) && s in st.dev.table.monitors
    requires st.dev.table.monitors[s].pendingTargets.Some?
    ensures Listens(st.dev.table, s, st.dev.table.monitors[s].pendingTargets.value.seqNo)
  {
    assert MonitorOk(st.dev.table.monitors[s], s, st.dev.table.connectors, st.dev.table.updateSeq);
  }

  /** A refusal remembered at this settle is about this push's list, and its index about this monitor's. */
  lemma RefusalAfterSettle(st: State)
    requires Inv(st) && st.worker.Reporting? && Listens(st.dev.table, st.worker.s, st.worker.seqNo)
    ensures RefusalOk(SettledNow(st).dev.table.monitors[st.worker.s])
  {
    var w := st.worker;
    var m := st.dev.table.monitors[w.s];
    ListensExactly(st);
    assert m.modes == w.before.modes;
    if m.Outstanding(w.seqNo) { PendingIsTheWorkers(st); }
    assert RefusalOk(m);
    RefusalOfDecided(m, w);
  }

  lemma PendingIsTheWorkers(st: State)
    requires Inv(st) && st.worker.Reporting? && st.worker.s in st.dev.table.monitors
    requires st.dev.table.monitors[st.worker.s].Outstanding(st.worker.seqNo)
    ensures st.dev.table.monitors[st.worker.s].pendingTargets.value.targets == st.worker.targets
  {
    var w, jobs := st.worker, Jobs(st);
    var m := st.dev.table.monitors[w.s];
    assert PushesOk(m, st.birth[w.s], jobs, w.s);
    var i :| 0 <= i < |jobs| && CarriesPending(jobs[i], w.s, m.pendingTargets.value);
    SameStampSameJob(jobs, st.dev.table.updateSeq, i);
  }

  lemma RefusalOfDecided(m: Monitor, w: Worker)
    requires w.Reporting? && RefusalOk(m)
    requires m.Outstanding(w.seqNo) ==> m.pendingTargets.value.targets == w.targets
    requires w.result.Blocked? ==>
               w.result.supersetIdx < |m.modes| && m.modes[w.result.supersetIdx] !in w.targets
    ensures RefusalOk(Decided(m, w.seqNo, w.result, w.targets).0)
  {
  }

  lemma SettleStepKeepsInv(st: State)
    requires Inv(st) && st.worker.Reporting?
    ensures Inv(SettledNow(st))
  {
    var w := st.worker;
    SettleKeepsTable(st);
    SettleKeepsQueue(st);
    SettleKeepsMonitors(st);
    assert SettledNow(st).dev.table.connectors == st.dev.table.connectors;
  }

  // ----- the remaining steps -----

  /** A step that changes no job, nothing seen and nothing listed. */
  ghost predicate Unmoved(st: State, st': State) {
    && Jobs(st') == Jobs(st) && Seen(st') == Seen(st) && Listed(st') == Listed(st)
    && st'.birth == st.birth && st'.dev.table.updateSeq == st.dev.table.updateSeq
    && st'.dev.table.monitors.Keys == st.dev.table.monitors.Keys
  }

  lemma UnmovedKeepsQueue(st: State, st': State)
    requires QueueInv(st) && Unmoved(st, st')
    ensures QueueInv(st')
  {
  }

  lemma PingIsUnmoved(st: State, nowMs: nat, s: u64)
    ensures Unmoved(st, st.(dev := st.dev.(table := Pinged(st.dev.table, nowMs, s))))
  {
    var st' := st.(dev := st.dev.(table := Pinged(st.dev.table, nowMs, s)));
    assert st'.dev.table.monitors.Keys == st.dev.table.monitors.Keys;
  }

  lemma PingKeepsMonitors(st: State, nowMs: nat, s: u64)
    requires MonitorsInv(st)
    ensures MonitorsInv(st.(dev := st.dev.(table := Pinged(st.dev.table, nowMs, s))))
  {
    var t := Pinged(st.dev.table, nowMs, s);
    assert Jobs(st.(dev := st.dev.(table := t))) == Jobs(st);
    forall r | r in t.monitors
      ensures r in st.birth && PushesOk(t.monitors[r], st.birth[r], Jobs(st), r) && RefusalOk(t.monitors[r])
    {
      assert PushesOk(st.dev.table.monitors[r], st.birth[r], Jobs(st), r) && RefusalOk(st.dev.table.monitors[r]);
    }
  }

  lemma PingKeepsProtocol(st: State, nowMs: nat, s: u64)
    requires Inv(st)
    ensures Inv(st.(dev := st.dev.(table := Pinged(st.dev.table, nowMs, s))))
  {
    PingKeepsInv(st.dev.table, nowMs, s);
    PingIsUnmoved(st, nowMs, s);
    UnmovedKeepsQueue(st, st.(dev := st.dev.(table := Pinged(st.dev.table, nowMs, s))));
    PingKeepsMonitors(st, nowMs, s);
  }

  lemma AnswerRequests(dev: Device, a: Action)
    requires DeviceInv(dev) && IsRequest(a) && !a.Update? && (a.SetPool? ==> a.desired.Valid())
    ensures Requests(dev, Answer(dev, a).0, Answer(dev, a).1)
  {
    match a {
      case Create(handshaken, nowMs, req, select) => CreateMirrors(dev, handshaken, nowMs, req, select);
      case Destroy(handshaken, s) => DestroyMirrors(dev, handshaken, s);
      case SetPool(handshaken, nowMs, desired, select) => SetPoolMirrors(dev, handshaken, nowMs, desired, select);
      case Tick(nowMs) => TickMirrors(dev, nowMs);
    }
  }

  lemma MovingIsUnmoved(st: State, s: u64, kind: Kind)
    requires s in st.os
    ensures Unmoved(st, st.(os := st.os[s := st.os[s].(kind := kind)]))
  {
    var st' := st.(os := st.os[s := st.os[s].(kind := kind)]);
    assert Seen(st') == Seen(st);
  }

  /** Parking and replugging change where a monitor is, never what it shows. */
  lemma MovingKeepsInv(st: State, s: u64, kind: Kind)
    requires Inv(st) && st.worker.Idle? && s in st.os
    ensures Inv(st.(os := st.os[s := st.os[s].(kind := kind)]))
  {
    MovingIsUnmoved(st, s, kind);
    UnmovedKeepsQueue(st, st.(os := st.os[s := st.os[s].(kind := kind)]));
  }

  lemma PreferenceKeepsInv(st: State, luid: u64)
    requires Inv(st)
    ensures Inv(st.(dev := st.dev.(preferredAdapter := luid)))
  {
    UnmovedKeepsQueue(st, st.(dev := st.dev.(preferredAdapter := luid)));
  }

  lemma RequestStep(st: State, a: Action) returns (st': State)
    requires Inv(st) && Enabled(st, a) && IsRequest(a) && !a.Update?
    ensures st' == Next(st, a) && Inv(st')
  {
    AnswerRequests(st.dev, a);
    var dev, effects := Answer(st.dev, a).0, Answer(st.dev, a).1;
    st' := Enqueued(st, dev, effects);
    RequestKeepsInv(st, dev, effects);
  }

  lemma WorkerStep(st: State, a: Action) returns (st': State)
    requires Inv(st) && Enabled(st, a)
    requires a.Take? || a.Return? || a.Settle? || a.Park? || a.Replug?
    ensures st' == Next(st, a) && Inv(st')
  {
    match a {
      case Take(works, world) =>
        st' := Taken(st, works, world);
        if st.queue[0].effect.PushModes? {
          TakePushKeepsInv(st, works, world);
        } else {
          TakeKeepsInv(st, works, world);
        }
      case Return(taken) => st' := Returned(st, taken); ReturnKeepsInv(st, taken);
      case Settle => st' := SettledNow(st); SettleStepKeepsInv(st);
      case Park(s) => st' := st.(os := st.os[s := st.os[s].(kind := Parked)]); MovingKeepsInv(st, s, Parked);
      case Replug(s, works) =>
        var kind := if works then Arrived else Missing;
        st' := st.(os := st.os[s := st.os[s].(kind := kind)]);
        MovingKeepsInv(st, s, kind);
    }
  }

  lemma StepKeepsInv(st: State, a: Action) returns (st': State)
    requires Inv(st) && Enabled(st, a)
    ensures st' == Next(st, a) && Inv(st')
  {
    if a.Update? {
      st' := UpdateKeepsProtocol(st, a);
    } else if IsRequest(a) {
      st' := RequestStep(st, a);
    } else if a.Ping? {
      st' := st.(dev := st.dev.(table := Pinged(st.dev.table, a.nowMs, a.s)));
      PingKeepsProtocol(st, a.nowMs, a.s);
    } else if a.SetRenderAdapter? {
      st' := st.(dev := st.dev.(preferredAdapter := a.luid));
      PreferenceKeepsInv(st, a.luid);
    } else if a.Startup? {
      st' := StartKeepsInv(st, a.nowMs, a.select);
    } else {
      st' := WorkerStep(st, a);
    }
  }

  lemma FollowingKeepsInv(states: seq<State>, actions: seq<Action>, i: nat)
    requires |states| == |actions| + 1 && i < |actions| && Follows(states, actions, i) && Inv(states[i])
    ensures Inv(states[i + 1])
  {
    var st' := StepKeepsInv(states[i], actions[i]);
  }

  lemma RunsKeepInv(states: seq<State>, actions: seq<Action>, i: nat)
    requires IsRun(states, actions) && i < |states|
    ensures Inv(states[i])
  {
    InitialInv(states[0]);
    for k := 0 to i
      invariant Inv(states[k])
    {
      FollowingKeepsInv(states, actions, k);
    }
  }
}
