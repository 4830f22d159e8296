/** The members of the permanent pool: what they carry, what a lost reply costs, what a start brings back. */
module PoolProofs {
  import opened Prelude
  import opened Modes
  import opened Identity
  import opened Persist
  import opened Session
  import opened SessionProofs
  import opened Permanent
  import opened Dispatch
  import opened DispatchProofs

  // ----- members carry the pool's settings -----

  predicate SettingsOf(m: Monitor, pool: PoolConfig) {
    && |m.modes| == 1 && m.modes[0].Spec() == ModeSpec(pool.width, pool.height, pool.refreshMillihz)
    && m.modes[0].bitDepth.AsRaw() == pool.bitDepth && pool.hdr == (if m.modes[0].hdr then 1 else 0)
    && m.looks == Looks(pool.physicalWidthMm, pool.physicalHeightMm, 0, pool.name)
    && m.leaseTimeoutMs == LEASE_TIMEOUT_DISABLED
  }

  predicate MemberOf(m: Monitor, pool: PoolConfig, i: u32) {
    m.displayId == PermanentDisplayId(i) && SettingsOf(m, pool)
  }

  /** A monitor with a member's identity has the pool's settings. */
  predicate Matches(m: Monitor, pool: PoolConfig, i: u32) {
    m.displayId == PermanentDisplayId(i) ==> SettingsOf(m, pool)
  }

  ghost predicate MembersMatch(t: Table, pool: PoolConfig) {
    forall i: u32 :: i < pool.count && Member(t, i) ==> Matches(t.monitors[PermanentSessionId(i)], pool, i)
  }

  /** A monitor has the settings of one pool only, up to the count. */
  lemma OneSettings(m: Monitor, p: PoolConfig, q: PoolConfig)
    requires SettingsOf(m, p) && SettingsOf(m, q)
    ensures p.(count := q.count) == q
  {
  }

  lemma OneModeList(spec: ModeSpec, depthRaw: u32, hdrRaw: u32, caps: Caps)
    ensures var r, v := ValidList([spec], 1, depthRaw, hdrRaw, caps), Validate(spec, depthRaw, hdrRaw, caps);
            (r.Ok? <==> v.Ok?) && (v.Ok? ==> r == Ok([v.value]))
  {
    var v := Validate(spec, depthRaw, hdrRaw, caps);
    assert ValidPrefix([spec], 0, depthRaw, hdrRaw, caps) == Ok([]);
    if v.Ok? { assert [] + [v.value] == [v.value]; }
  }

  lemma MemberAsksForItself(desired: PoolConfig, i: u32)
    ensures !MemberRequest(desired, i).Ephemeral() && MemberRequest(desired, i).Identity() == PermanentDisplayId(i)
  {
  }

  lemma MemberGetsSettings(m: Monitor, desired: PoolConfig, i: u32, caps: Caps)
    requires var req := MemberRequest(desired, i);
             ValidList(req.modes, req.modeCount, req.bitDepth, req.hdr, caps) == Ok(m.modes) && m.looks == req.looks
    requires m.leaseTimeoutMs == LEASE_TIMEOUT_DISABLED
    ensures SettingsOf(m, desired)
  {
    OneModeList(MemberRequest(desired, i).modes[0], desired.bitDepth, desired.hdr, caps);
  }

  lemma MemberIsMade(t: Table, nowMs: nat, desired: PoolConfig, i: u32, caps: Caps,
                     select: u64 -> Result<u64>, preferred: u64) returns (m: Monitor)
    requires TableInv(t) && Admits(t, MemberRequest(desired, i), caps, select, preferred)
    ensures CreatedTrusted(t, nowMs, MemberRequest(desired, i), caps, select, preferred).1 == Ok(m)
    ensures MemberOf(m, desired, i)
  {
    m := AdmittedIsMade(t, nowMs, MemberRequest(desired, i), caps, select, preferred);
    MemberAsksForItself(desired, i);
    MemberGetsSettings(m, desired, i, caps);
  }

  ghost predicate MakesAt(create: (Table, u32) -> (Table, Result<Monitor>), desired: PoolConfig, t: Table, i: u32) {
    TableInv(t) && create(t, i).1.Ok? ==> MemberOf(create(t, i).1.value, desired, i)
  }

  ghost predicate MakesMembers(create: (Table, u32) -> (Table, Result<Monitor>), desired: PoolConfig) {
    forall t: Table, i: u32 :: MakesAt(create, desired, t, i)
  }

  lemma CreatorMakes(cfg: Config, preferred: u64, nowMs: nat, desired: PoolConfig, select: u64 -> Result<u64>)
    ensures MakesMembers(Creator(cfg, preferred, nowMs, desired, select), desired)
  {
    var create := Creator(cfg, preferred, nowMs, desired, select);
    forall t: Table, i: u32 ensures MakesAt(create, desired, t, i) {
      if TableInv(t) {
        CreateFailsCleanly(t, nowMs, MemberRequest(desired, i), cfg.caps, select, preferred);
        if Admits(t, MemberRequest(desired, i), cfg.caps, select, preferred) {
          var m := MemberIsMade(t, nowMs, desired, i, cfg.caps, select, preferred);
        }
      }
    }
  }

  // ----- what applying a pool does to the table -----

  predicate SameAt(t: Table, t': Table, i: u32)
    requires Member(t, i)
  {
    Member(t', i) && t'.monitors[PermanentSessionId(i)] == t.monitors[PermanentSessionId(i)]
  }

  /** What is there after the destroys was there before. */
  ghost predicate Shrunk(t: Table, t': Table) { forall i: u32 :: Member(t', i) ==> Member(t, i) && SameAt(t, t', i) }

  /** The creates add the members in range, with the settings asked for, and touch no other. */
  ghost predicate Grown(t: Table, t': Table, from: u32, n: u32, desired: PoolConfig) {
    && (forall i: u32 :: Member(t', i) ==>
          if Member(t, i) then SameAt(t, t', i)
          else from <= i < n && MemberOf(t'.monitors[PermanentSessionId(i)], desired, i))
    && (forall i: u32 :: from <= i < n ==> !Member(t, i))
  }

  lemma {:induction false} DestroyMembersShrink(t: Table, from: u32, end: u32)
    requires from <= end
    ensures Shrunk(t, AfterDestroyMembers(t, from, end).0)
    ensures (forall i: u32 :: from <= i < end ==> !Member(t, i)) ==> AfterDestroyMembers(t, from, end).0 == t
    decreases end - from
  {
    if from < end {
      var t' := Destroyed(t, PermanentSessionId(from));
      DestroyMembersShrink(t', from + 1, end);
      if forall i: u32 :: from <= i < end ==> !Member(t, i) { assert !Member(t, from); }
      assert forall i: u32 :: Member(t', i) ==> Member(t, i) && SameAt(t, t', i);
    }
  }

  lemma {:induction false} CreateMembersGrow(create: (Table, u32) -> (Table, Result<Monitor>), slots: u32, t: Table,
                                             from: u32, end: u32, desired: PoolConfig)
    requires CreatesProperly(create) && MakesMembers(create, desired) && TableInv(t) && from <= end
    ensures var (t', _, n, _) := AfterCreateMembers(create, slots, t, from, end, from);
            Grown(t, t', from, n, desired) && (forall i: u32 :: Member(t, i) ==> Member(t', i)) && from <= n
    decreases end - from
  {
    if from < end {
      var t', r := FirstMakes(create, t, from, desired);
      if r.Ok? {
        CreateMembersGrow(create, slots, t', from + 1, end, desired);
        var (t'', _, n, _) := AfterCreateMembers(create, slots, t', from + 1, end, from + 1);
        OneMoreGrown(t, t', t'', from, n, r, desired);
      }
    }
  }

  lemma FirstMakes(create: (Table, u32) -> (Table, Result<Monitor>), t: Table, from: u32, desired: PoolConfig)
    returns (t': Table, r: Result<Monitor>)
    requires CreatesProperly(create) && MakesMembers(create, desired) && TableInv(t)
    ensures (t', r) == create(t, from) && CreatesOne(t, from, t', r)
    ensures r.Ok? ==> MemberOf(r.value, desired, from)
  {
    var made := create(t, from);
    t', r := made.0, made.1;
    assert CreatesAt(create, t, from);
    assert MakesAt(create, desired, t, from);
  }

  lemma OneMoreGrown(t: Table, t': Table, t'': Table, from: u32, n: u32, r: Result<Monitor>, desired: PoolConfig)
    requires CreatesOne(t, from, t', r) && r.Ok? && MemberOf(r.value, desired, from) && from < n
    requires Grown(t', t'', from + 1, n, desired)
    requires forall i: u32 :: Member(t', i) ==> Member(t'', i)
    ensures Grown(t, t'', from, n, desired) && (forall i: u32 :: Member(t, i) ==> Member(t'', i))
    ensures Member(t'', from) && !Member(t, from)
  {
    OneMemberMore(t, from, t', r);
    assert Member(t', from);
    forall i: u32 | Member(t'', i)
      ensures if Member(t, i) then SameAt(t, t'', i)
              else from <= i < n && MemberOf(t''.monitors[PermanentSessionId(i)], desired, i)
    {
      if Member(t', i) { assert SameAt(t', t'', i); }
    }
  }

  /** The creates as a whole: refused at once, or some members more. */
  lemma CreateStageGrows(create: (Table, u32) -> (Table, Result<Monitor>), slots: u32, t: Table, from: u32, end: u32,
                         start: u32, desired: PoolConfig)
    requires CreatesProperly(create) && MakesMembers(create, desired) && TableInv(t) && from < end
    ensures var (t', _, n, _) := AfterCreateMembers(create, slots, t, from, end, start);
            if create(t, from).1.Err? then t' == t && n == start
            else from < n <= end && Grown(t, t', from, n, desired) && Member(t', from) && !Member(t, from)
  {
    var (t', r) := create(t, from);
    assert CreatesAt(create, t, from);
    assert MakesAt(create, desired, t, from);
    if r.Ok? {
      CreateMembersAdds(create, slots, t', from + 1, end);
      CreateMembersGrow(create, slots, t', from + 1, end, desired);
      var (t'', _, n, _) := AfterCreateMembers(create, slots, t', from + 1, end, from + 1);
      OneMoreGrown(t, t', t'', from, n, r, desired);
    }
  }

  predicate NoneLive(t: Table, from: u32, end: u32) { forall i: u32 :: from <= i < end ==> !Member(t, i) }

  /** The next member a configuration creates is refused, decided on the table given. */
  ghost predicate Refused(dev: Device, t: Table, desired: PoolConfig, i: u32, select: u64 -> Result<u64>) {
    !Admits(t, MemberRequest(desired, i), dev.cfg.caps, select, dev.preferredAdapter)
  }

  /** The two stages of applying a pool: the table between them, the table after, and the count reached. */
  ghost predicate Stages(dev: Device, desired: PoolConfig, select: u64 -> Result<u64>, mid: Table, after: Table, n: u32) {
    var p := Reconcile(dev.pool, desired);
    && Shrunk(dev.table, mid)
    && (forall i: u32 :: Member(mid, i) <==> Member(dev.table, i) && !(p.destroyFrom <= i < p.destroyTo))
    && (NoneLive(dev.table, p.destroyFrom, p.destroyTo) ==> mid == dev.table)
    && (if p.createFrom == p.createTo then after == mid && n == desired.count
        else if Refused(dev, mid, desired, p.createFrom, select) then after == mid && n == 0
        else p.createFrom < n <= p.createTo && Grown(mid, after, p.createFrom, n, desired)
             && Member(after, p.createFrom) && !Member(mid, p.createFrom))
  }

  lemma DestroyStage(t: Table, from: u32, end: u32) returns (mid: Table)
    requires TableInv(t) && from <= end
    ensures mid == AfterDestroyMembers(t, from, end).0
    ensures TableInv(mid) && mid.maxMonitors == t.maxMonitors && Shrunk(t, mid)
    ensures forall i: u32 :: Member(mid, i) <==> Member(t, i) && !(from <= i < end)
    ensures NoneLive(t, from, end) ==> mid == t
  {
    DestroyMembersMirror(t, from, end);
    DestroyMembersRemoves(t, from, end);
    DestroyMembersShrink(t, from, end);
    mid := AfterDestroyMembers(t, from, end).0;
  }

  lemma CreateStageOf(dev: Device, nowMs: nat, desired: PoolConfig, select: u64 -> Result<u64>, mid: Table,
                      from: u32, end: u32, start: u32) returns (after: Table, n: u32)
    requires TableInv(mid) && from <= end
    ensures var create := Creator(dev.cfg, dev.preferredAdapter, nowMs, desired, select);
            var r := AfterCreateMembers(create, dev.cfg.RingSlots(), mid, from, end, start);
            after == r.0 && n == r.2
    ensures if from == end then after == mid && n == start
            else if Refused(dev, mid, desired, from, select) then after == mid && n == start
            else from < n <= end && Grown(mid, after, from, n, desired) && Member(after, from) && !Member(mid, from)
  {
    var create := Creator(dev.cfg, dev.preferredAdapter, nowMs, desired, select);
    CreatorIsProper(dev.cfg, dev.preferredAdapter, nowMs, desired, select);
    CreatorMakes(dev.cfg, dev.preferredAdapter, nowMs, desired, select);
    if from < end {
      CreateStageGrows(create, dev.cfg.RingSlots(), mid, from, end, start, desired);
      CreateFailsCleanly(mid, nowMs, MemberRequest(desired, from), dev.cfg.caps, select, dev.preferredAdapter);
    }
    after := AfterCreateMembers(create, dev.cfg.RingSlots(), mid, from, end, start).0;
    n := AfterCreateMembers(create, dev.cfg.RingSlots(), mid, from, end, start).2;
  }

  lemma ApplyPoolStages(dev: Device, nowMs: nat, desired: PoolConfig, select: u64 -> Result<u64>)
    returns (mid: Table, after: Table, n: u32)
    requires DeviceInv(dev)
    ensures AfterApplyPool(dev, nowMs, desired, select).0 ==
            dev.(table := after, pool := desired.(count := MinU32(n, desired.count)))
    ensures TableInv(mid) && mid.maxMonitors == dev.table.maxMonitors && Stages(dev, desired, select, mid, after, n)
  {
    var p := Reconcile(dev.pool, desired);
    mid := DestroyStage(dev.table, p.destroyFrom, p.destroyTo);
    after, n := CreateStageOf(dev, nowMs, desired, select, mid, p.createFrom, p.createTo,
                              if p.createFrom == p.createTo then desired.count else 0);
  }

  /** Whatever fails on the way, the members up to the recorded count have the recorded settings. */
  lemma StagesKeepMatch(dev: Device, desired: PoolConfig, select: u64 -> Result<u64>, mid: Table, after: Table, n: u32)
    requires Stages(dev, desired, select, mid, after, n) && MembersMatch(dev.table, dev.pool)
    ensures MembersMatch(after, desired.(count := MinU32(n, desired.count)))
  {
    var p, pool := Reconcile(dev.pool, desired), desired.(count := MinU32(n, desired.count));
    forall i: u32 | i < pool.count && Member(after, i)
      ensures Matches(after.monitors[PermanentSessionId(i)], pool, i)
    {
      if Member(mid, i) {
        assert SameAt(dev.table, mid, i);
        assert SameAt(mid, after, i);
        assert i < dev.pool.count;
        assert Matches(dev.table.monitors[PermanentSessionId(i)], dev.pool, i);
      }
    }
  }

  lemma ApplyPoolKeepsMatch(dev: Device, nowMs: nat, desired: PoolConfig, select: u64 -> Result<u64>)
    requires DeviceInv(dev) && MembersMatch(dev.table, dev.pool)
    ensures var dev' := AfterApplyPool(dev, nowMs, desired, select).0; MembersMatch(dev'.table, dev'.pool)
  {
    var mid, after, n := ApplyPoolStages(dev, nowMs, desired, select);
    StagesKeepMatch(dev, desired, select, mid, after, n);
  }

  // ----- a pool request whose reply does not fit -----

  /** The request unplugs no live member and its first create, if it has one, is refused. */
  ghost predicate PoolShowsNothing(dev: Device, desired: PoolConfig, select: u64 -> Result<u64>) {
    var p := Reconcile(dev.pool, desired);
    && NoneLive(dev.table, p.destroyFrom, p.destroyTo)
    && (p.createFrom == p.createTo || Refused(dev, dev.table, desired, p.createFrom, select))
  }

  /** The request asks for the pool there is, or none is recorded and none will be. */
  ghost predicate PoolSavesNothing(dev: Device, desired: PoolConfig, select: u64 -> Result<u64>) {
    || desired == dev.pool
    || (dev.pool.count == 0 && (desired.count == 0 || Refused(dev, dev.table, desired, 0, select)))
  }

  lemma StagesShowExactly(dev: Device, desired: PoolConfig, select: u64 -> Result<u64>, mid: Table, after: Table, n: u32)
    requires Stages(dev, desired, select, mid, after, n) && MembersMatch(dev.table, dev.pool)
    ensures after.monitors == dev.table.monitors <==> PoolShowsNothing(dev, desired, select)
  {
    var p := Reconcile(dev.pool, desired);
    if NoneLive(dev.table, p.destroyFrom, p.destroyTo) {
      if !PoolShowsNothing(dev, desired, select) { assert Member(after, p.createFrom) && !Member(dev.table, p.createFrom); }
    } else {
      var i: u32 :| p.destroyFrom <= i < p.destroyTo && Member(dev.table, i);
      assert !Member(mid, i);
      if Member(after, i) {
        var m, m' := dev.table.monitors[PermanentSessionId(i)], after.monitors[PermanentSessionId(i)];
        assert MemberOf(m', desired, i);
        if m == m' { OneSettings(m, dev.pool, desired); }
      }
    }
  }

  lemma StagesSaveExactly(dev: Device, desired: PoolConfig, select: u64 -> Result<u64>, mid: Table, after: Table, n: u32)
    requires Stages(dev, desired, select, mid, after, n)
    ensures var dev' := dev.(table := after, pool := desired.(count := MinU32(n, desired.count)));
            Saved(dev') == Saved(dev) <==> PoolSavesNothing(dev, desired, select)
  {
    var p := Reconcile(dev.pool, desired);
    if desired == dev.pool || dev.pool.count == 0 { assert NoneLive(dev.table, p.destroyFrom, p.destroyTo); }
  }

  /**
   A SET_PERMANENT_POOL whose reply does not fit is carried out and its effects are lost. The shell keeps
   up exactly when the reply fits, or the request is refused, or it unplugs no live member and its first
   create is refused; the registry exactly when it asks for the pool there is, or none was recorded
   and its first create is refused.
   */
  lemma SetPoolNeedsRoom(dev: Device, handshaken: bool, nowMs: nat, desired: PoolConfig, select: u64 -> Result<u64>,
                         fits: bool)
    requires DeviceInv(dev) && desired.Valid() && MembersMatch(dev.table, dev.pool)
    ensures var (dev', _, effects) := AfterSetPool(dev, handshaken, nowMs, desired, select);
            Mirrors(dev.table.monitors, Delivered(fits, effects), dev'.table.monitors, dev.table.updateSeq) <==>
            || fits || !handshaken || !ValidPool(desired, dev.cfg.caps, dev.cfg.TableCap())
            || PoolShowsNothing(dev, desired, select)
    ensures var (dev', _, effects) := AfterSetPool(dev, handshaken, nowMs, desired, select);
            Records(dev, Delivered(fits, effects), dev') <==>
            || fits || !handshaken || !ValidPool(desired, dev.cfg.caps, dev.cfg.TableCap())
            || PoolSavesNothing(dev, desired, select)
  {
    var (dev', _, effects) := AfterSetPool(dev, handshaken, nowMs, desired, select);
    SetPoolMirrors(dev, handshaken, nowMs, desired, select);
    RecordsAllRecords(dev, effects, dev');
    NothingShown(dev.table.monitors, dev'.table.monitors, dev.table.updateSeq);
    NothingDelivered(dev, dev');
    if handshaken && ValidPool(desired, dev.cfg.caps, dev.cfg.TableCap()) {
      var mid, after, n := ApplyPoolStages(dev, nowMs, desired, select);
      StagesShowExactly(dev, desired, select, mid, after, n);
      StagesSaveExactly(dev, desired, select, mid, after, n);
    }
  }

  // ----- device start -----

  /** The table holds members below k at most. */
  ghost predicate OnlyBelow(t: Table, k: u32) {
    && |t.monitors| <= k
    && forall s :: s in t.monitors ==> s < PermanentSessionId(k) && t.monitors[s].displayId < PermanentDisplayId(k)
  }

  /** Nothing but the adapter can keep a valid pool's next member from coming up on such a table. */
  lemma NextMemberIsAdmitted(t: Table, desired: PoolConfig, k: u32, caps: Caps, select: u64 -> Result<u64>,
                             preferred: u64)
    requires OnlyBelow(t, k) && k < desired.count && k < t.maxMonitors && ValidPool(desired, caps, t.maxMonitors)
    ensures Admits(t, MemberRequest(desired, k), caps, select, preferred) <==> AdapterFor(0, select, preferred).Ok?
  {
    OneModeList(MemberRequest(desired, k).modes[0], desired.bitDepth, desired.hdr, caps);
  }

  /** Member i is live under its own identity. */
  predicate HasMember(t: Table, i: u32) {
    Member(t, i) && t.monitors[PermanentSessionId(i)].displayId == PermanentDisplayId(i)
  }

  /** Member k has joined the table, at the cost of a reservation at most. */
  ghost predicate Joins(t: Table, k: u32, t': Table)
    requires k < U32_MAX
  {
    && TableInv(t') && OnlyBelow(t', k + 1) && t'.maxMonitors == t.maxMonitors
    && (PermanentDisplayId(k) in t.connectors.reservations ==>
          t'.connectors.reservations == t.connectors.reservations)
    && HasMember(t', k)
    && forall i: u32 :: HasMember(t, i) ==> HasMember(t', i)
  }

  lemma OneMoreBelow(t: Table, k: u32, m: Monitor)
    requires OnlyBelow(t, k) && k < U32_MAX && m.displayId == PermanentDisplayId(k)
    ensures var t' := t.(monitors := t.monitors[PermanentSessionId(k) := m]);
            OnlyBelow(t', k + 1) && HasMember(t', k) && forall i: u32 :: HasMember(t, i) ==> HasMember(t', i)
  {
  }

  lemma MadeMemberJoins(t: Table, k: u32, m: Monitor, c: Connectors)
    requires OnlyBelow(t, k) && k < U32_MAX && m.displayId == PermanentDisplayId(k)
    requires PermanentDisplayId(k) in t.connectors.reservations ==> c.reservations == t.connectors.reservations
    requires TableInv(t.(monitors := t.monitors[PermanentSessionId(k) := m], connectors := c))
    ensures Joins(t, k, t.(monitors := t.monitors[PermanentSessionId(k) := m], connectors := c))
  {
    OneMoreBelow(t, k, m);
  }

  /** An identity that has a reservation takes none. */
  lemma ReservedTakesNothing(t: Table, d: u64)
    ensures d in t.connectors.reservations ==>
              Acquired(t.connectors, d, Live(t.monitors)).0.reservations == t.connectors.reservations
  {
    if d in t.connectors.reservations {
      assert t.connectors.reservations[d := t.connectors.reservations[d]] == t.connectors.reservations;
    }
  }

  lemma NextMemberComesUp(t: Table, nowMs: nat, desired: PoolConfig, k: u32, caps: Caps, select: u64 -> Result<u64>,
                          preferred: u64)
    requires TableInv(t) && OnlyBelow(t, k) && k < desired.count && ValidPool(desired, caps, t.maxMonitors)
    requires AdapterFor(0, select, preferred).Ok?
    ensures var r := CreatedTrusted(t, nowMs, MemberRequest(desired, k), caps, select, preferred);
            r.1.Ok? && Joins(t, k, r.0)
  {
    var req := MemberRequest(desired, k);
    NextMemberIsAdmitted(t, desired, k, caps, select, preferred);
    MemberAsksForItself(desired, k);
    CreateKeepsInv(t, nowMs, req, caps, select, preferred);
    var m := AdmittedIsMade(t, nowMs, req, caps, select, preferred);
    ReservedTakesNothing(t, PermanentDisplayId(k));
    MadeMemberJoins(t, k, m, Acquired(t.connectors, PermanentDisplayId(k), Live(t.monitors)).0);
  }

  predicate AllReserved(c: Connectors, from: u32, end: u32) {
    forall i: u32 :: from <= i < end ==> PermanentDisplayId(i) in c.reservations
  }

  /** The pool with k of its n members up; `kept`: the reservations it makes do with. */
  ghost predicate ComingUp(t: Table, k: u32, n: u32, kept: Option<map<u64, u32>>) {
    && TableInv(t) && OnlyBelow(t, k) && n <= t.maxMonitors
    && (forall i: u32 :: i < k ==> HasMember(t, i))
    && (kept.Some? ==> t.connectors.reservations == kept.value && AllReserved(t.connectors, 0, n))
  }

  lemma JoiningKeepsComingUp(t: Table, k: u32, t': Table, n: u32, kept: Option<map<u64, u32>>)
    requires ComingUp(t, k, n, kept) && k < n && Joins(t, k, t')
    ensures ComingUp(t', k + 1, n, kept)
  {
  }

  lemma NextKeepsComingUp(t: Table, nowMs: nat, desired: PoolConfig, k: u32, caps: Caps, select: u64 -> Result<u64>,
                          preferred: u64, kept: Option<map<u64, u32>>)
    requires ComingUp(t, k, desired.count, kept) && k < desired.count && ValidPool(desired, caps, t.maxMonitors)
    requires AdapterFor(0, select, preferred).Ok?
    ensures var r := CreatedTrusted(t, nowMs, MemberRequest(desired, k), caps, select, preferred);
            r.1.Ok? && ComingUp(r.0, k + 1, desired.count, kept)
  {
    NextMemberComesUp(t, nowMs, desired, k, caps, select, preferred);
    var t' := CreatedTrusted(t, nowMs, MemberRequest(desired, k), caps, select, preferred).0;
    JoiningKeepsComingUp(t, k, t', desired.count, kept);
  }

  /** One turn of the create loop, as far as p goes. */
  ghost predicate TurnKeeps(create: (Table, u32) -> (Table, Result<Monitor>), p: (Table, u32) -> bool, end: u32,
                            t: Table, k: u32)
  {
    p(t, k) && k < end ==> create(t, k).1.Ok? && p(create(t, k).0, k + 1)
  }

  /** What every turn of the create loop keeps holds at its end, and the loop gets there. */
  lemma {:induction false} LoopKeeps(create: (Table, u32) -> (Table, Result<Monitor>), p: (Table, u32) -> bool,
                                     slots: u32, t: Table, k: u32, end: u32, created: u32)
    requires k <= end && p(t, k)
    requires forall t: Table, k: u32 :: TurnKeeps(create, p, end, t, k)
    ensures var (t', _, n, _) := AfterCreateMembers(create, slots, t, k, end, created);
            p(t', end) && n == if k < end then end else created
    decreases end - k
  {
    if k < end {
      assert TurnKeeps(create, p, end, t, k);
      LoopKeeps(create, p, slots, create(t, k).0, k + 1, end, k + 1);
    }
  }

  ghost function Upward(n: u32, kept: Option<map<u64, u32>>): (Table, u32) -> bool {
    (t: Table, k: u32) => ComingUp(t, k, n, kept)
  }

  lemma TurnComesUp(cfg: Config, preferred: u64, nowMs: nat, desired: PoolConfig, select: u64 -> Result<u64>,
                    kept: Option<map<u64, u32>>, t: Table, k: u32)
    requires ValidPool(desired, cfg.caps, cfg.TableCap()) && AdapterFor(0, select, preferred).Ok?
    ensures TurnKeeps(Creator(cfg, preferred, nowMs, desired, select), Upward(desired.count, kept), desired.count, t, k)
  {
    if ComingUp(t, k, desired.count, kept) && k < desired.count {
      NextKeepsComingUp(t, nowMs, desired, k, cfg.caps, select, preferred, kept);
    }
  }

  /** With an adapter every member of a valid pool comes up on an empty table. */
  lemma AllMembersComeUp(dev: Device, nowMs: nat, select: u64 -> Result<u64>, kept: Option<map<u64, u32>>)
    requires ComingUp(dev.table, 0, dev.pool.count, kept) && dev.table.maxMonitors == dev.cfg.TableCap()
    requires ValidPool(dev.pool, dev.cfg.caps, dev.cfg.TableCap()) && AdapterFor(0, select, dev.preferredAdapter).Ok?
    ensures var create := Creator(dev.cfg, dev.preferredAdapter, nowMs, dev.pool, select);
            var (t', _, n, _) := AfterCreateMembers(create, dev.cfg.RingSlots(), dev.table, 0, dev.pool.count, 0);
            ComingUp(t', dev.pool.count, dev.pool.count, kept) && n == dev.pool.count
  {
    var create, p := Creator(dev.cfg, dev.preferredAdapter, nowMs, dev.pool, select), Upward(dev.pool.count, kept);
    forall t: Table, k: u32 ensures TurnKeeps(create, p, dev.pool.count, t, k) {
      TurnComesUp(dev.cfg, dev.preferredAdapter, nowMs, dev.pool, select, kept, t, k);
    }
    LoopKeeps(create, p, dev.cfg.RingSlots(), dev.table, 0, dev.pool.count, 0);
  }

  /** A live member's identity is reserved. */
  lemma LiveMembersAreReserved(t: Table, n: u32)
    requires TableInv(t) && forall i: u32 :: i < n ==> HasMember(t, i)
    ensures AllReserved(t.connectors, 0, n)
  {
    forall i: u32 | i < n ensures PermanentDisplayId(i) in t.connectors.reservations {
      assert HasMember(t, i);
      assert MonitorOk(t.monitors[PermanentSessionId(i)], PermanentSessionId(i), t.connectors, t.updateSeq);
    }
  }

  /** Starting records nothing new: there is no pool to bring up, or an adapter is there and every member
      already has its reservation. */
  ghost predicate StartRecordsItself(dev: Device, select: u64 -> Result<u64>) {
    || dev.pool.count == 0 || !ValidPool(dev.pool, dev.cfg.caps, dev.cfg.TableCap())
    || (&& AdapterFor(0, select, dev.preferredAdapter).Ok?
        && AllReserved(dev.table.connectors, 0, dev.pool.count))
  }

  /** Without an adapter no member comes up and the pool is forgotten. */
  lemma StartWithoutAdapter(dev: Device, nowMs: nat, select: u64 -> Result<u64>)
    requires DeviceInv(dev) && dev.table.monitors == map[]
    requires dev.pool.count > 0 && ValidPool(dev.pool, dev.cfg.caps, dev.cfg.TableCap())
    requires AdapterFor(0, select, dev.preferredAdapter).Err?
    ensures AfterStartup(dev, nowMs, select).0 == dev.(pool := dev.pool.(count := 0))
  {
    var t := dev.table;
    NextMemberIsAdmitted(t, dev.pool, 0, dev.cfg.caps, select, dev.preferredAdapter);
    CreateFailsCleanly(t, nowMs, MemberRequest(dev.pool, 0), dev.cfg.caps, select, dev.preferredAdapter);
  }

  /** With one they all do, and nothing but the reservations can change. */
  lemma StartWithAdapter(dev: Device, nowMs: nat, select: u64 -> Result<u64>) returns (t': Table)
    requires DeviceInv(dev) && dev.table.monitors == map[]
    requires dev.pool.count > 0 && ValidPool(dev.pool, dev.cfg.caps, dev.cfg.TableCap())
    requires AdapterFor(0, select, dev.preferredAdapter).Ok?
    ensures AfterStartup(dev, nowMs, select).0 == dev.(table := t') && t'.monitors != map[]
    ensures forall i: u32 :: i < dev.pool.count ==> HasMember(t', i)
    ensures t'.connectors.reservations == dev.table.connectors.reservations <==>
            AllReserved(dev.table.connectors, 0, dev.pool.count)
  {
    var create := Creator(dev.cfg, dev.preferredAdapter, nowMs, dev.pool, select);
    t' := AfterCreateMembers(create, dev.cfg.RingSlots(), dev.table, 0, dev.pool.count, 0).0;
    AllMembersComeUp(dev, nowMs, select, None);
    LiveMembersAreReserved(t', dev.pool.count);
    assert HasMember(t', 0);
    if AllReserved(dev.table.connectors, 0, dev.pool.count) {
      AllMembersComeUp(dev, nowMs, select, Some(dev.table.connectors.reservations));
    }
  }

  /**
   What a start records: the registry, which hears nothing of it, stays up to date exactly when there was
   no pool to bring up, or an adapter was there and every member already had its reservation.
   */
  lemma StartupSavesExactly(dev: Device, nowMs: nat, select: u64 -> Result<u64>)
    requires DeviceInv(dev) && dev.table.monitors == map[]
    ensures var (dev', effects) := AfterStartup(dev, nowMs, select);
            && (Saved(dev') == Saved(dev) <==> StartRecordsItself(dev, select))
            && (!StartRecordsItself(dev, select) ==> dev'.pool.count == 0 || dev'.table.monitors != map[])
            && (dev.pool.count == 0 ==> dev' == dev)
  {
    StartupMirrors(dev, nowMs, select);
    if dev.pool.count > 0 && ValidPool(dev.pool, dev.cfg.caps, dev.cfg.TableCap()) {
      if AdapterFor(0, select, dev.preferredAdapter).Err? {
        StartWithoutAdapter(dev, nowMs, select);
      } else {
        var t' := StartWithAdapter(dev, nowMs, select);
        SameList(dev.table.connectors, t'.connectors);
      }
    }
  }

  /** The effects of a start are plugs. */
  lemma {:induction false} CreatesOnlyPlug(create: (Table, u32) -> (Table, Result<Monitor>), slots: u32, t: Table,
                                           from: u32, end: u32, created: u32)
    requires from <= end
    ensures !Snapshots(AfterCreateMembers(create, slots, t, from, end, created).3)
    decreases end - from
  {
    if from < end && create(t, from).1.Ok? {
      CreatesOnlyPlug(create, slots, create(t, from).0, from + 1, end, from + 1);
    }
  }

  lemma StartupTakesNoSnapshot(dev: Device, nowMs: nat, select: u64 -> Result<u64>)
    ensures !Snapshots(AfterStartup(dev, nowMs, select).1)
  {
    if dev.pool.count > 0 && ValidPool(dev.pool, dev.cfg.caps, dev.cfg.TableCap()) {
      var create := Creator(dev.cfg, dev.preferredAdapter, nowMs, dev.pool, select);
      CreatesOnlyPlug(create, dev.cfg.RingSlots(), dev.table, 0, dev.pool.count, 0);
    }
  }
}
