/** Effects mirror the table, and the newest stored blob mirrors the reservations and the pool. */
module DispatchProofs {
  import opened Prelude
  import opened Modes
  import opened Identity
  import opened Ordered
  import opened Persist
  import opened Session
  import opened SessionProofs
  import opened Permanent
  import opened Dispatch

  /** The two mode lists a monitor is shown with. */
  datatype Shown = Shown(modes: seq<Mode>, targets: seq<Mode>)

  function View(monitors: map<u64, Monitor>): (v: map<u64, Shown>)
    ensures v.Keys == monitors.Keys
  {
    map s | s in monitors :: Shown(monitors[s].modes, monitors[s].targetModes)
  }

  /** Carrying out one effect, every plug succeeding. */
  function Carried(v: map<u64, Shown>, e: Effect): map<u64, Shown> {
    match e
    case PlugMonitor(s, _, _, modes, targets, _, _) => v[s := Shown(modes, targets)]
    case UnplugMonitor(s) => v - {s}
    case _ => v
  }

  function Fold(v: map<u64, Shown>, effects: seq<Effect>): map<u64, Shown>
    decreases |effects|
  {
    if effects == [] then v else Fold(Carried(v, effects[0]), effects[1..])
  }

  /** Plugs only what is not plugged, unplugs only what is, and pushes nothing. */
  predicate Proper(v: map<u64, Shown>, effects: seq<Effect>)
    decreases |effects|
  {
    effects == [] ||
    (&& !effects[0].PushModes?
     && (effects[0].PlugMonitor? ==> effects[0].sessionId !in v)
     && (effects[0].UnplugMonitor? ==> effects[0].sessionId in v)
     && Proper(Carried(v, effects[0]), effects[1..]))
  }

  /** The blob the registry ends up holding. */
  function Newest(stored: Option<seq<u8>>, effects: seq<Effect>): Option<seq<u8>>
    decreases |effects|
  {
    if effects == [] then stored
    else Newest(if effects[0].PersistState? then Some(effects[0].blob) else stored, effects[1..])
  }

  lemma {:induction false} FoldOfSum(v: map<u64, Shown>, a: seq<Effect>, b: seq<Effect>)
    ensures Fold(v, a + b) == Fold(Fold(v, a), b)
    ensures Proper(v, a + b) <==> Proper(v, a) && Proper(Fold(v, a), b)
    decreases |a|
  {
    if a == [] {
      assert a + b == b;
    } else {
      FoldOfSum(Carried(v, a[0]), a[1..], b);
      assert (a + b)[1..] == a[1..] + b;
    }
  }

  lemma {:induction false} NewestOfSum(stored: Option<seq<u8>>, a: seq<Effect>, b: seq<Effect>)
    ensures Newest(stored, a + b) == Newest(Newest(stored, a), b)
    decreases |a|
  {
    if a == [] {
      assert a + b == b;
    } else {
      NewestOfSum(if a[0].PersistState? then Some(a[0].blob) else stored, a[1..], b);
      assert (a + b)[1..] == a[1..] + b;
    }
  }

  ghost predicate DeviceInv(dev: Device) {
    TableInv(dev.table) && dev.pool.Valid() && dev.table.maxMonitors == dev.cfg.TableCap()
  }

  predicate Names(effects: seq<Effect>, s: u64) {
    exists i :: 0 <= i < |effects| && NamesIt(effects[i], s)
  }

  predicate NamesIt(e: Effect, s: u64) { (e.PlugMonitor? || e.UnplugMonitor?) && e.sessionId == s }

  /** Just created: nothing outstanding, and deaf to every update issued before it. */
  predicate JustCreated(m: Monitor, updateSeq: nat) {
    m.settledSeq == updateSeq && m.pendingTargets.None? && m.blocked.None?
  }

  /** A session the effects do not name is as it was; one they name and that is there is new. */
  ghost predicate Leaves(before: map<u64, Monitor>, effects: seq<Effect>, after: map<u64, Monitor>, updateSeq: nat) {
    forall s :: s in after ==>
      if Names(effects, s) then JustCreated(after[s], updateSeq) else s in before && after[s] == before[s]
  }

  /** The effects take what is shown from before the request to after it. */
  ghost predicate Mirrors(before: map<u64, Monitor>, effects: seq<Effect>, after: map<u64, Monitor>, updateSeq: nat) {
    && Proper(View(before), effects)
    && Fold(View(before), effects) == View(after)
    && Leaves(before, effects, after, updateSeq)
  }

  lemma NamesInSum(a: seq<Effect>, b: seq<Effect>, s: u64)
    ensures Names(a + b, s) <==> Names(a, s) || Names(b, s)
  {
    if Names(a, s) {
      var i :| 0 <= i < |a| && NamesIt(a[i], s);
      assert NamesIt((a + b)[i], s);
    }
    if Names(b, s) {
      var i :| 0 <= i < |b| && NamesIt(b[i], s);
      assert NamesIt((a + b)[|a| + i], s);
    }
  }

  lemma MirrorsOnward(a: map<u64, Monitor>, e: seq<Effect>, b: map<u64, Monitor>, f: seq<Effect>, c: map<u64, Monitor>,
                      updateSeq: nat)
    requires Mirrors(a, e, b, updateSeq) && Mirrors(b, f, c, updateSeq)
    ensures Mirrors(a, e + f, c, updateSeq)
  {
    FoldOfSum(View(a), e, f);
    forall s | s in c ensures
      if Names(e + f, s) then JustCreated(c[s], updateSeq) else s in a && c[s] == a[s]
    {
      NamesInSum(e, f, s);
    }
  }

  lemma PersistMirrors(monitors: map<u64, Monitor>, blob: seq<u8>, updateSeq: nat)
    ensures Mirrors(monitors, [PersistState(blob)], monitors, updateSeq)
  {
    assert forall s :: !Names([PersistState(blob)], s);
  }

  lemma NothingMirrors(monitors: map<u64, Monitor>, updateSeq: nat)
    ensures Mirrors(monitors, [], monitors, updateSeq)
  {
  }

  /** A registry that was up to date before is up to date after. */
  ghost predicate Records(before: Device, effects: seq<Effect>, after: Device) {
    forall stored: Option<seq<u8>> ::
      Recorded(stored) == Saved(before) ==> Recorded(Newest(stored, effects)) == Saved(after)
  }

  predicate Snapshots(effects: seq<Effect>) { exists i :: 0 <= i < |effects| && effects[i].PersistState? }

  /** With a snapshot the registry is brought up to date whatever it held; without one there was nothing
      to record. */
  ghost predicate RecordsAll(before: Device, effects: seq<Effect>, after: Device) {
    if Snapshots(effects) then forall stored: Option<seq<u8>> :: Recorded(Newest(stored, effects)) == Saved(after)
    else Saved(after) == Saved(before) && after.pool == before.pool && after.cfg == before.cfg
         && after.table.monitors.Keys == before.table.monitors.Keys
  }

  lemma {:induction false} NoSnapshotNoChange(stored: Option<seq<u8>>, effects: seq<Effect>)
    requires !Snapshots(effects)
    ensures Newest(stored, effects) == stored
    decreases |effects|
  {
    if effects != [] {
      assert !effects[0].PersistState?;
      assert forall i :: 0 <= i < |effects| - 1 ==> effects[1..][i] == effects[i + 1];
      NoSnapshotNoChange(stored, effects[1..]);
    }
  }

  lemma RecordsAllRecords(before: Device, effects: seq<Effect>, after: Device)
    requires RecordsAll(before, effects, after)
    ensures Records(before, effects, after)
  {
    if !Snapshots(effects) {
      forall stored: Option<seq<u8>> ensures Newest(stored, effects) == stored { NoSnapshotNoChange(stored, effects); }
    }
  }

  /** What every request other than UPDATE_MODES does to the device. */
  ghost predicate Requests(before: Device, after: Device, effects: seq<Effect>) {
    && DeviceInv(after) && after.table.updateSeq == before.table.updateSeq
    && Mirrors(before.table.monitors, effects, after.table.monitors, before.table.updateSeq)
    && RecordsAll(before, effects, after)
  }

  lemma PersistRecords(dev: Device, stored: Option<seq<u8>>)
    requires DeviceInv(dev)
    ensures Recorded(Newest(stored, [PersistEffect(dev)])) == Saved(dev)
  {
    var pool := if dev.pool.count > 0 then Some(dev.pool) else None;
    RestartRebuildsReservations(dev.table.connectors, pool);
  }

  /** Closing with a snapshot brings the registry up to date and shows nothing. */
  lemma EndsWithPersist(before: Device, effects: seq<Effect>, after: Device, updateSeq: nat)
    requires DeviceInv(after) && Mirrors(before.table.monitors, effects, after.table.monitors, updateSeq)
    ensures RecordsAll(before, effects + [PersistEffect(after)], after)
    ensures Mirrors(before.table.monitors, effects + [PersistEffect(after)], after.table.monitors, updateSeq)
  {
    assert (effects + [PersistEffect(after)])[|effects|].PersistState?;
    forall stored: Option<seq<u8>>
      ensures Recorded(Newest(stored, effects + [PersistEffect(after)])) == Saved(after)
    {
      NewestOfSum(stored, effects, [PersistEffect(after)]);
      PersistRecords(after, Newest(stored, effects));
    }
    PersistMirrors(after.table.monitors, Serialized(Saved(after)), updateSeq);
    MirrorsOnward(before.table.monitors, effects, after.table.monitors, [PersistEffect(after)],
                  after.table.monitors, updateSeq);
  }

  lemma OneThenPersist(before: Device, e: Effect, after: Device, updateSeq: nat)
    requires DeviceInv(after) && Mirrors(before.table.monitors, [e], after.table.monitors, updateSeq)
    ensures RecordsAll(before, [e, PersistEffect(after)], after)
    ensures Mirrors(before.table.monitors, [e, PersistEffect(after)], after.table.monitors, updateSeq)
  {
    var whole := [e] + [PersistEffect(after)];
    assert whole == [e, PersistEffect(after)];
    EndsWithPersist(before, [e], after, updateSeq);
  }

  lemma PlugMirrors(monitors: map<u64, Monitor>, m: Monitor, slots: u32, updateSeq: nat)
    requires m.sessionId !in monitors && JustCreated(m, updateSeq)
    ensures Mirrors(monitors, [PlugEffect(m, slots)], monitors[m.sessionId := m], updateSeq)
  {
    var e := PlugEffect(m, slots);
    assert View(monitors[m.sessionId := m]) == Carried(View(monitors), e);
    assert NamesIt([e][0], m.sessionId);
    assert forall s :: Names([e], s) ==> s == m.sessionId;
  }

  lemma UnplugMirrors(monitors: map<u64, Monitor>, s: u64, updateSeq: nat)
    requires s in monitors
    ensures Mirrors(monitors, [UnplugMonitor(s)], monitors - {s}, updateSeq)
  {
    assert View(monitors - {s}) == Carried(View(monitors), UnplugMonitor(s));
    assert forall r :: Names([UnplugMonitor(s)], r) ==> r == s;
  }

  // ----- request by request -----

  lemma CreateAnswerMirrors(before: Device, dev: Device, r: Result<Monitor>)
    requires DeviceInv(dev) && (r.Err? ==> dev == before)
    requires r.Ok? ==> r.value.sessionId !in before.table.monitors && JustCreated(r.value, dev.table.updateSeq)
                       && dev.table.monitors == before.table.monitors[r.value.sessionId := r.value]
    ensures var effects := CreateAnswer(dev, r).1;
            Mirrors(before.table.monitors, effects, dev.table.monitors, dev.table.updateSeq) && RecordsAll(before, effects, dev)
  {
    if r.Ok? {
      var plug := PlugEffect(r.value, dev.cfg.RingSlots());
      PlugMirrors(before.table.monitors, r.value, dev.cfg.RingSlots(), dev.table.updateSeq);
      OneThenPersist(before, plug, dev, dev.table.updateSeq);
    }
  }

  lemma CreateKeepsInvPublicly(t: Table, nowMs: nat, req: CreateRequest, caps: Caps,
                               select: u64 -> Result<u64>, preferred: u64)
    requires TableInv(t)
    ensures var (t', r) := Created(t, nowMs, req, caps, select, preferred);
            && TableInv(t') && t'.updateSeq == t.updateSeq && t'.maxMonitors == t.maxMonitors
            && (r.Err? ==> t' == t)
            && (r.Ok? ==> r.value.sessionId !in t.monitors && JustCreated(r.value, t.updateSeq)
                          && t'.monitors == t.monitors[r.value.sessionId := r.value])
  {
    if req.displayId < EPHEMERAL_DISPLAY_ID_BASE {
      CreateKeepsInv(t, nowMs, req, caps, select, preferred);
      CreateFailsCleanly(t, nowMs, req, caps, select, preferred);
    }
  }

  lemma CreateMirrors(dev: Device, handshaken: bool, nowMs: nat, req: CreateRequest, select: u64 -> Result<u64>)
    requires DeviceInv(dev)
    ensures var (dev', reply, effects) := AfterCreate(dev, handshaken, nowMs, req, select);
            Requests(dev, dev', effects)
  {
    if handshaken {
      CreateKeepsInvPublicly(dev.table, nowMs, req, dev.cfg.caps, select, dev.preferredAdapter);
      var (t, r) := Created(dev.table, nowMs, req, dev.cfg.caps, select, dev.preferredAdapter);
      CreateAnswerMirrors(dev, dev.(table := t), r);
    }
  }

  lemma DestroyMirrors(dev: Device, handshaken: bool, sessionId: u64)
    requires DeviceInv(dev)
    ensures var (dev', result, effects) := AfterDestroy(dev, handshaken, sessionId);
            Requests(dev, dev', effects)
  {
    if handshaken && sessionId in dev.table.monitors {
      var dev' := dev.(table := Destroyed(dev.table, sessionId));
      DestroyKeepsInv(dev.table, sessionId);
      UnplugMirrors(dev.table.monitors, sessionId, dev.table.updateSeq);
      OneThenPersist(dev, UnplugMonitor(sessionId), dev', dev.table.updateSeq);
    }
  }

  lemma UnplugThen(monitors: map<u64, Monitor>, s: u64, effects: seq<Effect>, c: map<u64, Monitor>, updateSeq: nat)
    requires s in monitors && Mirrors(monitors - {s}, effects, c, updateSeq)
    ensures Mirrors(monitors, [UnplugMonitor(s)] + effects, c, updateSeq)
  {
    UnplugMirrors(monitors, s, updateSeq);
    MirrorsOnward(monitors, [UnplugMonitor(s)], monitors - {s}, effects, c, updateSeq);
  }

  lemma UnplugFirst(monitors: map<u64, Monitor>, ids: seq<u64>, updateSeq: nat)
    requires ids != [] && ids[0] in monitors
    requires Mirrors(monitors - {ids[0]}, Unplugs(ids[1..]), monitors - {ids[0]} - Elements(ids[1..]), updateSeq)
    ensures Mirrors(monitors, Unplugs(ids), monitors - Elements(ids), updateSeq)
  {
    ElementsOfTail(ids);
    RemoveTwice(monitors, {ids[0]}, Elements(ids[1..]));
    UnplugThen(monitors, ids[0], Unplugs(ids[1..]), monitors - Elements(ids), updateSeq);
    assert Unplugs(ids) == [UnplugMonitor(ids[0])] + Unplugs(ids[1..]);
  }

  lemma {:induction false} UnplugsMirror(monitors: map<u64, Monitor>, ids: seq<u64>, updateSeq: nat)
    requires Rising(ids) && forall s :: s in ids ==> s in monitors
    ensures Mirrors(monitors, Unplugs(ids), monitors - Elements(ids), updateSeq)
    decreases |ids|
  {
    if ids == [] {
      assert monitors - Elements(ids) == monitors;
      NothingMirrors(monitors, updateSeq);
    } else {
      assert forall s :: s in ids[1..] ==> s in ids && s != ids[0];
      UnplugsMirror(monitors - {ids[0]}, ids[1..], updateSeq);
      UnplugFirst(monitors, ids, updateSeq);
    }
  }

  lemma TickMirrors(dev: Device, nowMs: nat)
    requires DeviceInv(dev)
    ensures var (dev', effects) := AfterTick(dev, nowMs);
            Requests(dev, dev', effects)
  {
    var dead := Ascending(Dead(dev.table, nowMs));
    if dead != [] {
      TickKeepsInv(dev.table, nowMs);
      var dev' := dev.(table := Ticked(dev.table, nowMs));
      UnplugsMirror(dev.table.monitors, dead, dev.table.updateSeq);
      DestroyEachRemoves(dev.table, dead);
      EndsWithPersist(dev, Unplugs(dead), dev', dev.table.updateSeq);
    } else {
      NothingMirrors(dev.table.monitors, dev.table.updateSeq);
    }
  }

  lemma UpdateKeepsView(t: Table, s: u64, specs: seq<ModeSpec>, caps: Caps, token: nat)
    requires MonitorsOk(t) && (s in t.monitors ==> t.monitors[s].modes != [])
    ensures var t' := Updated(t, s, specs, caps, token).0;
            View(t'.monitors) == View(t.monitors) && t'.connectors == t.connectors
  {
    if s in t.monitors {
      UpdateOutcome(t, s, specs, caps, token);
      AskOutcome(WithoutStaleBlock(t.monitors[s], token), specs, caps, t.updateSeq);
      assert Updated(t, s, specs, caps, token).0.monitors.Keys == t.monitors.Keys;
    }
  }

  lemma UpdateAnswerShowsNothing(v: map<u64, Shown>, offered: nat, s: u64, count: nat, r: Result<ModeUpdate>)
    ensures var effects := UpdateAnswer(offered, s, count, r).1;
            Fold(v, effects) == v && !Snapshots(effects)
  {
    var effects := UpdateAnswer(offered, s, count, r).1;
    assert effects != [] ==> effects[0].PushModes? && effects[1..] == [];
  }

  /** A table shown and recorded as before leaves nothing to carry out or to write. */
  lemma ShownAsBefore(dev: Device, t: Table, effects: seq<Effect>)
    requires DeviceInv(dev) && TableInv(t) && t.maxMonitors == dev.table.maxMonitors
    requires View(t.monitors) == View(dev.table.monitors) && t.connectors == dev.table.connectors
    requires !Snapshots(effects)
    ensures DeviceInv(dev.(table := t)) && RecordsAll(dev, effects, dev.(table := t))
  {
    assert t.monitors.Keys == View(t.monitors).Keys;
  }

  lemma UpdateMirrors(dev: Device, handshaken: bool, s: u64, specs: seq<ModeSpec>, count: u32, token: nat)
    requires DeviceInv(dev)
    requires s in dev.table.monitors ==> dev.table.monitors[s].modes != []
    ensures var (dev', reply, effects) := AfterUpdate(dev, handshaken, s, specs, count, token);
            && DeviceInv(dev') && View(dev'.table.monitors) == View(dev.table.monitors)
            && Fold(View(dev.table.monitors), effects) == View(dev.table.monitors) && RecordsAll(dev, effects, dev')
  {
    if handshaken && CountOk(count, specs) {
      UpdateKeepsInv(dev.table, s, specs[..count], dev.cfg.caps, token);
      UpdateKeepsView(dev.table, s, specs[..count], dev.cfg.caps, token);
      var (t, r) := Updated(dev.table, s, specs[..count], dev.cfg.caps, token);
      UpdateAnswerShowsNothing(View(dev.table.monitors), Offered(dev.table, s), s, count, r);
      ShownAsBefore(dev, t, UpdateAnswer(Offered(dev.table, s), s, count, r).1);
    }
  }

  // ----- the pool -----

  /** What creating one pool member may do to the table. */
  ghost predicate CreatesOne(t: Table, i: u32, t': Table, r: Result<Monitor>) {
    && TableInv(t') && t'.updateSeq == t.updateSeq && t'.maxMonitors == t.maxMonitors
    && (r.Err? ==> t' == t)
    && (r.Ok? ==> r.value.sessionId == PermanentSessionId(i) && PermanentSessionId(i) !in t.monitors
                  && JustCreated(r.value, t.updateSeq)
                  && t'.monitors == t.monitors[PermanentSessionId(i) := r.value])
  }

  ghost predicate CreatesProperly(create: (Table, u32) -> (Table, Result<Monitor>)) {
    forall t: Table, i: u32 :: CreatesAt(create, t, i)
  }

  ghost predicate CreatesAt(create: (Table, u32) -> (Table, Result<Monitor>), t: Table, i: u32) {
    TableInv(t) ==> CreatesOne(t, i, create(t, i).0, create(t, i).1)
  }

  lemma CreatorIsProper(cfg: Config, preferred: u64, nowMs: nat, desired: PoolConfig, select: u64 -> Result<u64>)
    ensures CreatesProperly(Creator(cfg, preferred, nowMs, desired, select))
  {
    var create := Creator(cfg, preferred, nowMs, desired, select);
    forall t: Table, i: u32 ensures CreatesAt(create, t, i) {
      if TableInv(t) {
        CreateKeepsInv(t, nowMs, MemberRequest(desired, i), cfg.caps, select, preferred);
        CreateFailsCleanly(t, nowMs, MemberRequest(desired, i), cfg.caps, select, preferred);
      }
    }
  }

  lemma PlugThen(a: map<u64, Monitor>, m: Monitor, slots: u32, b: map<u64, Monitor>, effects: seq<Effect>,
                 c: map<u64, Monitor>, updateSeq: nat)
    requires m.sessionId !in a && b == a[m.sessionId := m] && JustCreated(m, updateSeq)
    requires Mirrors(b, effects, c, updateSeq)
    ensures Mirrors(a, [PlugEffect(m, slots)] + effects, c, updateSeq)
  {
    PlugMirrors(a, m, slots, updateSeq);
    MirrorsOnward(a, [PlugEffect(m, slots)], b, effects, c, updateSeq);
  }

  lemma {:induction false} CreateMembersKeepInv(create: (Table, u32) -> (Table, Result<Monitor>), slots: u32, t: Table,
                                                from: u32, end: u32, created: u32)
    requires CreatesProperly(create) && TableInv(t) && from <= end
    ensures var t' := AfterCreateMembers(create, slots, t, from, end, created).0;
            TableInv(t') && t'.updateSeq == t.updateSeq && t'.maxMonitors == t.maxMonitors
    decreases end - from
  {
    if from < end {
      var (t', r) := create(t, from);
      assert CreatesAt(create, t, from);
      if r.Ok? { CreateMembersKeepInv(create, slots, t', from + 1, end, from + 1); }
    }
  }

  /** One member more, and what the rest of the loop does after it. */
  lemma CreateOneThen(create: (Table, u32) -> (Table, Result<Monitor>), slots: u32, t: Table, from: u32, end: u32,
                      created: u32)
    requires from < end && CreatesOne(t, from, create(t, from).0, create(t, from).1)
    requires var (t', r) := create(t, from);
             var (t'', _, _, effects) := AfterCreateMembers(create, slots, t', from + 1, end, from + 1);
             r.Ok? ==> Mirrors(t'.monitors, effects, t''.monitors, t.updateSeq)
    ensures var (t'', _, _, effects) := AfterCreateMembers(create, slots, t, from, end, created);
            Mirrors(t.monitors, effects, t''.monitors, t.updateSeq)
  {
    var (t', r) := create(t, from);
    if r.Ok? {
      var (t'', _, _, effects) := AfterCreateMembers(create, slots, t', from + 1, end, from + 1);
      PlugThen(t.monitors, r.value, slots, t'.monitors, effects, t''.monitors, t.updateSeq);
    } else {
      NothingMirrors(t.monitors, t.updateSeq);
    }
  }

  lemma {:induction false} CreateMembersMirror(create: (Table, u32) -> (Table, Result<Monitor>), slots: u32, t: Table,
                                               from: u32, end: u32, created: u32)
    requires CreatesProperly(create) && TableInv(t) && from <= end
    ensures var (t', _, _, effects) := AfterCreateMembers(create, slots, t, from, end, created);
            Mirrors(t.monitors, effects, t'.monitors, t.updateSeq)
    decreases end - from
  {
    if from == end {
      NothingMirrors(t.monitors, t.updateSeq);
    } else {
      var (t', r) := create(t, from);
      assert CreatesAt(create, t, from);
      if r.Ok? { CreateMembersMirror(create, slots, t', from + 1, end, from + 1); }
      CreateOneThen(create, slots, t, from, end, created);
    }
  }

  lemma {:induction false} DestroyMembersMirror(t: Table, from: u32, end: u32)
    requires TableInv(t) && from <= end
    ensures var (t', effects) := AfterDestroyMembers(t, from, end);
            && TableInv(t') && t'.updateSeq == t.updateSeq && t'.maxMonitors == t.maxMonitors
            && Mirrors(t.monitors, effects, t'.monitors, t.updateSeq)
    decreases end - from
  {
    if from < end {
      var sid := PermanentSessionId(from);
      DestroyKeepsInv(t, sid);
      DestroyMembersMirror(Destroyed(t, sid), from + 1, end);
      var (t', effects) := AfterDestroyMembers(Destroyed(t, sid), from + 1, end);
      if sid in t.monitors {
        UnplugThen(t.monitors, sid, effects, t'.monitors, t.updateSeq);
      }
    }
  }

  lemma ApplyPoolMirrors(dev: Device, nowMs: nat, desired: PoolConfig, select: u64 -> Result<u64>)
    requires DeviceInv(dev) && desired.Valid()
    ensures var (dev', _, effects) := AfterApplyPool(dev, nowMs, desired, select);
            && DeviceInv(dev') && dev'.table.updateSeq == dev.table.updateSeq
            && Mirrors(dev.table.monitors, effects, dev'.table.monitors, dev.table.updateSeq)
  {
    var plan := Reconcile(dev.pool, desired);
    DestroyMembersMirror(dev.table, plan.destroyFrom, plan.destroyTo);
    var (t, unplugs) := AfterDestroyMembers(dev.table, plan.destroyFrom, plan.destroyTo);
    var create := Creator(dev.cfg, dev.preferredAdapter, nowMs, desired, select);
    CreatorIsProper(dev.cfg, dev.preferredAdapter, nowMs, desired, select);
    var start := if plan.createFrom == plan.createTo then desired.count else 0;
    CreateMembersKeepInv(create, dev.cfg.RingSlots(), t, plan.createFrom, plan.createTo, start);
    CreateMembersMirror(create, dev.cfg.RingSlots(), t, plan.createFrom, plan.createTo, start);
    var (t', _, _, plugs) := AfterCreateMembers(create, dev.cfg.RingSlots(), t, plan.createFrom, plan.createTo, start);
    MirrorsOnward(dev.table.monitors, unplugs, t.monitors, plugs, t'.monitors, dev.table.updateSeq);
  }

  lemma SetPoolMirrors(dev: Device, handshaken: bool, nowMs: nat, desired: PoolConfig, select: u64 -> Result<u64>)
    requires DeviceInv(dev) && desired.Valid()
    ensures var (dev', _, effects) := AfterSetPool(dev, handshaken, nowMs, desired, select);
            Requests(dev, dev', effects)
  {
    if handshaken && ValidPool(desired, dev.cfg.caps, dev.cfg.TableCap()) {
      ApplyPoolMirrors(dev, nowMs, desired, select);
      var (dev', _, effects) := AfterApplyPool(dev, nowMs, desired, select);
      EndsWithPersist(dev, effects, dev', dev.table.updateSeq);
    }
  }

  // ----- across a restart -----

  /** Whatever bytes the registry held, the device starts sound. */
  lemma NewDeviceInv(cfg: Config, stored: Option<seq<u8>>)
    ensures DeviceInv(NewDevice(cfg, stored))
  {
    NewTableInv(cfg.maxMonitors, cfg.watchdogSecs, Recorded(stored).reservations);
  }

  /** A device started from the blob of another with the same cap records what that one recorded. */
  lemma RestartKeepsSaved(dev: Device, cfg: Config)
    requires DeviceInv(dev) && cfg.TableCap() == dev.table.maxMonitors
    ensures var stored := Some(Serialized(Saved(dev)));
            Recorded(stored) == Saved(dev) && Saved(NewDevice(cfg, stored)) == Saved(dev)
  {
    RestartRebuildsReservations(dev.table.connectors, if dev.pool.count > 0 then Some(dev.pool) else None);
  }

  lemma StartupMirrors(dev: Device, nowMs: nat, select: u64 -> Result<u64>)
    requires DeviceInv(dev)
    ensures var (dev', effects) := AfterStartup(dev, nowMs, select);
            && DeviceInv(dev') && dev'.table.updateSeq == dev.table.updateSeq
            && Mirrors(dev.table.monitors, effects, dev'.table.monitors, dev.table.updateSeq)
  {
    if dev.pool.count > 0 && ValidPool(dev.pool, dev.cfg.caps, dev.cfg.TableCap()) {
      ApplyPoolMirrors(dev.(pool := dev.pool.(count := 0)), nowMs, dev.pool, select);
    }
  }

  // ----- where a short output buffer leaves the shell behind -----

  /** With nothing delivered the registry is up to date only if there was nothing to record. */
  lemma NothingDelivered(before: Device, after: Device)
    requires DeviceInv(before)
    ensures Records(before, [], after) <==> Saved(after) == Saved(before)
  {
    PersistRecords(before, None);
    var stored := Newest(None, [PersistEffect(before)]);
    assert Newest(stored, []) == stored;
  }

  lemma NothingShown(before: map<u64, Monitor>, after: map<u64, Monitor>, updateSeq: nat)
    ensures Mirrors(before, [], after, updateSeq) <==> after == before
  {
    if Mirrors(before, [], after, updateSeq) {
      assert View(after).Keys == View(before).Keys;
      forall s | s in after ensures after[s] == before[s] { assert !Names([], s); }
    }
  }

  /** The list written to the registry says which identities are reserved where. */
  lemma SameList(c: Connectors, d: Connectors)
    requires Injective(c) && Injective(d) && c.maxConnectors == d.maxConnectors <= ABI_MAX_MONITORS
    ensures ReservationList(c.reservations) == ReservationList(d.reservations) <==> c.reservations == d.reservations
  {
    ListRestores(c);
    ListRestores(d);
  }

  /** Without room for the reply a create still happens, and its plug is lost: the shell keeps up
      exactly when the reply fits or the request would have been refused. */
  lemma CreateNeedsRoom(dev: Device, handshaken: bool, nowMs: nat, req: CreateRequest, select: u64 -> Result<u64>,
                        fits: bool)
    requires DeviceInv(dev)
    ensures var (dev', _, effects) := AfterCreate(dev, handshaken, nowMs, req, select);
            Mirrors(dev.table.monitors, Delivered(fits, effects), dev'.table.monitors, dev.table.updateSeq) <==>
            || fits || !handshaken
            || req.displayId >= EPHEMERAL_DISPLAY_ID_BASE || IsPermanentDisplayId(req.displayId)
            || !Admits(dev.table, req, dev.cfg.caps, select, dev.preferredAdapter)
  {
    var (dev', _, effects) := AfterCreate(dev, handshaken, nowMs, req, select);
    CreateMirrors(dev, handshaken, nowMs, req, select);
    CreateFailsCleanly(dev.table, nowMs, req, dev.cfg.caps, select, dev.preferredAdapter);
    if !fits && handshaken && req.displayId < EPHEMERAL_DISPLAY_ID_BASE {
      CreateKeepsInv(dev.table, nowMs, req, dev.cfg.caps, select, dev.preferredAdapter);
      assert View(dev'.table.monitors) == View(dev.table.monitors) ==>
               dev'.table.monitors.Keys == dev.table.monitors.Keys;
    }
  }

  lemma DestroyNeedsRoom(dev: Device, handshaken: bool, s: u64, fits: bool)
    requires DeviceInv(dev)
    ensures var (dev', _, effects) := AfterDestroy(dev, handshaken, s);
            Mirrors(dev.table.monitors, Delivered(fits, effects), dev'.table.monitors, dev.table.updateSeq) <==>
            fits || !handshaken || s !in dev.table.monitors
  {
    var (dev', _, effects) := AfterDestroy(dev, handshaken, s);
    DestroyMirrors(dev, handshaken, s);
    if !fits && handshaken && s in dev.table.monitors {
      assert s in View(dev.table.monitors) && s !in View(dev'.table.monitors);
    }
  }

  lemma SameReservationsSaved(dev: Device, dev': Device)
    requires DeviceInv(dev) && DeviceInv(dev') && dev'.cfg == dev.cfg && dev'.pool == dev.pool
    ensures Saved(dev') == Saved(dev) <==>
            dev'.table.connectors.reservations == dev.table.connectors.reservations
  {
    SameList(dev.table.connectors, dev'.table.connectors);
  }

  /** The registry hears nothing of such a create either, which matters exactly for a new identity. */
  lemma CreateIsRecordedWithRoom(dev: Device, handshaken: bool, nowMs: nat, req: CreateRequest,
                                 select: u64 -> Result<u64>, fits: bool)
    requires DeviceInv(dev)
    ensures var (dev', _, effects) := AfterCreate(dev, handshaken, nowMs, req, select);
            Records(dev, Delivered(fits, effects), dev') <==>
            || fits || !handshaken
            || req.displayId >= EPHEMERAL_DISPLAY_ID_BASE || IsPermanentDisplayId(req.displayId)
            || !Admits(dev.table, req, dev.cfg.caps, select, dev.preferredAdapter)
            || req.Identity() in dev.table.connectors.reservations
  {
    var (dev', _, effects) := AfterCreate(dev, handshaken, nowMs, req, select);
    CreateMirrors(dev, handshaken, nowMs, req, select);
    RecordsAllRecords(dev, effects, dev');
    NothingDelivered(dev, dev');
    SameReservationsSaved(dev, dev');
    CreateFailsCleanly(dev.table, nowMs, req, dev.cfg.caps, select, dev.preferredAdapter);
    if Admits(dev.table, req, dev.cfg.caps, select, dev.preferredAdapter) {
      var m := AdmittedIsMade(dev.table, nowMs, req, dev.cfg.caps, select, dev.preferredAdapter);
      AcquireMeaning(dev.table.connectors, req.Identity(), Live(dev.table.monitors));
    }
  }

  /** Nor of such a destroy, which matters exactly for an ephemeral identity. */
  lemma DestroyIsRecordedWithRoom(dev: Device, handshaken: bool, s: u64, fits: bool)
    requires DeviceInv(dev)
    ensures var (dev', _, effects) := AfterDestroy(dev, handshaken, s);
            Records(dev, Delivered(fits, effects), dev') <==>
            fits || !handshaken || s !in dev.table.monitors || !dev.table.monitors[s].ephemeralIdentity
  {
    var (dev', _, effects) := AfterDestroy(dev, handshaken, s);
    DestroyMirrors(dev, handshaken, s);
    RecordsAllRecords(dev, effects, dev');
    NothingDelivered(dev, dev');
    SameReservationsSaved(dev, dev');
    if s in dev.table.monitors {
      assert MonitorOk(dev.table.monitors[s], s, dev.table.connectors, dev.table.updateSeq);
    }
  }

  // ----- what the pool records of its members -----

  predicate Member(t: Table, i: u32) { PermanentSessionId(i) in t.monitors }

  /** The members with an index below the recorded count are live, and no others. */
  ghost predicate PoolCounted(t: Table, count: u32) { forall i: u32 :: Member(t, i) <==> i < count }

  lemma {:induction false} DestroyMembersRemoves(t: Table, from: u32, end: u32)
    requires from <= end
    ensures var t' := AfterDestroyMembers(t, from, end).0;
            forall i: u32 :: Member(t', i) <==> Member(t, i) && !(from <= i < end)
    decreases end - from
  {
    if from < end {
      var t' := Destroyed(t, PermanentSessionId(from));
      assert forall i: u32 :: Member(t', i) <==> Member(t, i) && i != from;
      DestroyMembersRemoves(t', from + 1, end);
    }
  }

  lemma OneMemberMore(t: Table, i: u32, t': Table, r: Result<Monitor>)
    requires CreatesOne(t, i, t', r) && r.Ok?
    ensures forall j: u32 :: Member(t', j) <==> Member(t, j) || j == i
  {
  }

  lemma FirstAdds(create: (Table, u32) -> (Table, Result<Monitor>), t: Table, from: u32) returns (t': Table)
    requires CreatesProperly(create) && TableInv(t)
    ensures t' == create(t, from).0
    ensures create(t, from).1.Ok? ==>
              TableInv(t') && forall j: u32 :: Member(t', j) <==> Member(t, j) || j == from
  {
    assert CreatesAt(create, t, from);
    t' := create(t, from).0;
    if create(t, from).1.Ok? { OneMemberMore(t, from, t', create(t, from).1); }
  }

  lemma {:induction false} CreateMembersAdds(create: (Table, u32) -> (Table, Result<Monitor>), slots: u32, t: Table,
                                             from: u32, end: u32)
    requires CreatesProperly(create) && TableInv(t) && from <= end
    ensures var (t', _, n, _) := AfterCreateMembers(create, slots, t, from, end, from);
            && from <= n <= end
            && (create(t, from).1.Err? || from == end ==> t' == t)
            && forall i: u32 :: Member(t', i) <==> Member(t, i) || from <= i < n
    decreases end - from
  {
    if from < end {
      var t' := FirstAdds(create, t, from);
      if create(t, from).1.Ok? { CreateMembersAdds(create, slots, t', from + 1, end); }
      else { assert CreatesAt(create, t, from); }
    }
  }

  lemma CreateStage(create: (Table, u32) -> (Table, Result<Monitor>), slots: u32, t: Table, from: u32, end: u32,
                    start: u32)
    requires CreatesProperly(create) && TableInv(t) && from < end
    ensures var (t', _, n, _) := AfterCreateMembers(create, slots, t, from, end, start);
            if create(t, from).1.Err? then t' == t && n == start
            else from < n <= end && forall i: u32 :: Member(t', i) <==> Member(t, i) || from <= i < n
  {
    var (t', r) := create(t, from);
    assert CreatesAt(create, t, from);
    if r.Ok? {
      OneMemberMore(t, from, t', r);
      CreateMembersAdds(create, slots, t', from + 1, end);
    }
  }

  lemma CountAfterStages(current: PoolConfig, desired: PoolConfig, before: Table, mid: Table, after: Table, n: u32,
                         failed: bool)
    requires PoolCounted(before, current.count)
    requires var p := Reconcile(current, desired);
             && (forall i: u32 :: Member(mid, i) <==> Member(before, i) && !(p.destroyFrom <= i < p.destroyTo))
             && (if p.createFrom == p.createTo then after == mid && n == desired.count
                 else if failed then after == mid && n == 0
                 else p.createFrom < n <= p.createTo
                      && forall i: u32 :: Member(after, i) <==> Member(mid, i) || p.createFrom <= i < n)
    ensures var p := Reconcile(current, desired);
            PoolCounted(after, MinU32(n, desired.count)) <==>
            !(current.(count := desired.count) == desired && 0 < current.count && p.createFrom < p.createTo && failed)
  {
    assert 0 < current.count ==> Member(before, 0);
  }

  /** The recorded count stays the number of live members except when an unchanged, non-empty pool
      grows and its first new member is not admitted: then 0 is recorded while the old members live on. */
  lemma PoolCountIsExactUnlessGrowthFails(dev: Device, nowMs: nat, desired: PoolConfig, select: u64 -> Result<u64>)
    requires DeviceInv(dev) && desired.Valid() && PoolCounted(dev.table, dev.pool.count)
    ensures var dev' := AfterApplyPool(dev, nowMs, desired, select).0;
            PoolCounted(dev'.table, dev'.pool.count) <==>
            !(&& dev.pool.(count := desired.count) == desired && 0 < dev.pool.count < desired.count
              && !Admits(dev.table, MemberRequest(desired, dev.pool.count), dev.cfg.caps, select, dev.preferredAdapter))
  {
    var plan := Reconcile(dev.pool, desired);
    DestroyMembersMirror(dev.table, plan.destroyFrom, plan.destroyTo);
    DestroyMembersRemoves(dev.table, plan.destroyFrom, plan.destroyTo);
    var t := AfterDestroyMembers(dev.table, plan.destroyFrom, plan.destroyTo).0;
    var create := Creator(dev.cfg, dev.preferredAdapter, nowMs, desired, select);
    CreatorIsProper(dev.cfg, dev.preferredAdapter, nowMs, desired, select);
    var start := if plan.createFrom == plan.createTo then desired.count else 0;
    if plan.createFrom < plan.createTo {
      CreateStage(create, dev.cfg.RingSlots(), t, plan.createFrom, plan.createTo, start);
      CreateFailsCleanly(t, nowMs, MemberRequest(desired, plan.createFrom), dev.cfg.caps, select, dev.preferredAdapter);
    }
    var (t', _, n, _) := AfterCreateMembers(create, dev.cfg.RingSlots(), t, plan.createFrom, plan.createTo, start);
    CountAfterStages(dev.pool, desired, dev.table, t, t', n, create(t, plan.createFrom).1.Err?);
  }
}
