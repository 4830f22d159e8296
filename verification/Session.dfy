/** The monitor table: leases, identities, and the published mode list of every session. */
module Session {
  import opened Prelude
  import opened Modes
  import opened Identity
  import opened ModePush
  import opened Ordered

  const ABI_MAX_MONITORS: u32 := 16
  const DEFAULT_LEASE_TIMEOUT_MS: u32 := 10_000
  const MIN_LEASE_TIMEOUT_MS: u32 := 3_000
  const MAX_LEASE_TIMEOUT_MS: u32 := 300_000
  const LEASE_TIMEOUT_USE_DEFAULT: u32 := 0
  const LEASE_TIMEOUT_DISABLED: u32 := U32_MAX

  const UPDATE_FAILED := -13
  const MODE_COMMITTED := -14

  /** What the host asked for in CREATE_MONITOR. */
  datatype CreateRequest = CreateRequest(
    sessionId: u64, displayId: u64, adapterLuid: u64, leaseTimeoutMs: u32,
    bitDepth: u32, hdr: u32, edidSerial: u32, flags: u32,
    modeCount: u32, modes: seq<ModeSpec>, looks: Looks)
  {
    /** EPHEMERAL_IDENTITY is bit 1 of the flags. */
    predicate Ephemeral() { displayId == 0 || flags / 2 % 2 == 1 }

    function Identity(): u64 { if Ephemeral() then EphemeralDisplayId(sessionId) else displayId }
  }

  /** The fields the table only carries through to the EDID. */
  datatype Looks = Looks(physicalWidthMm: u32, physicalHeightMm: u32, maxNits: u32, friendlyName: seq<u16>)

  datatype PendingTargets = PendingTargets(seqNo: nat, targets: seq<Mode>)

  datatype BlockedPush = BlockedPush(targets: seq<Mode>, supersetIdx: nat, token: nat)

  datatype Monitor = Monitor(
    sessionId: u64, displayId: u64, ephemeralIdentity: bool,
    connectorIndex: u32, edidSerial: u32, productCode: u16,
    modes: seq<Mode>, targetModes: seq<Mode>,
    pendingTargets: Option<PendingTargets>, blocked: Option<BlockedPush>, settledSeq: nat,
    adapterLuid: u64, looks: Looks, flags: u32,
    leaseTimeoutMs: u32, createdMs: nat, lastPingMs: nat, lastError: int)
  {
    /** The list a further request is measured against. */
    function TargetBase(): seq<Mode> {
      if pendingTargets.Some? then pendingTargets.value.targets else targetModes
    }

    predicate Expired(nowMs: nat) {
      leaseTimeoutMs != LEASE_TIMEOUT_DISABLED && SaturatingSub(nowMs, lastPingMs) > leaseTimeoutMs
    }

    predicate Outstanding(seqNo: nat) { pendingTargets.Some? && pendingTargets.value.seqNo == seqNo }
  }

  function SaturatingSub(a: nat, b: nat): nat { if a < b then 0 else a - b }

  function Clamp(x: nat, lo: nat, hi: nat): nat
    requires lo <= hi
  {
    if x < lo then lo else if x > hi then hi else x
  }

  function SaturatingSeconds(secs: u32): u32 { if secs * 1000 > U32_MAX then U32_MAX else secs * 1000 }

  /** The wire field resolved against the driver default: never reaped, or 3 s to 300 s. */
  function EffectiveLeaseTimeout(requestedMs: u32, watchdogSecs: u32): (r: u32)
    ensures r == LEASE_TIMEOUT_DISABLED || MIN_LEASE_TIMEOUT_MS <= r <= MAX_LEASE_TIMEOUT_MS
    ensures r == LEASE_TIMEOUT_DISABLED <==>
      requestedMs == LEASE_TIMEOUT_DISABLED || (requestedMs == LEASE_TIMEOUT_USE_DEFAULT && watchdogSecs == 0)
    ensures requestedMs == LEASE_TIMEOUT_USE_DEFAULT ==> r >= DEFAULT_LEASE_TIMEOUT_MS
    ensures MIN_LEASE_TIMEOUT_MS <= requestedMs <= MAX_LEASE_TIMEOUT_MS ==> r == requestedMs
  {
    if requestedMs == LEASE_TIMEOUT_USE_DEFAULT then
      if watchdogSecs == 0 then LEASE_TIMEOUT_DISABLED
      else
        var ms := Clamp(SaturatingSeconds(watchdogSecs), MIN_LEASE_TIMEOUT_MS, MAX_LEASE_TIMEOUT_MS);
        if ms < DEFAULT_LEASE_TIMEOUT_MS then DEFAULT_LEASE_TIMEOUT_MS else ms
    else if requestedMs == LEASE_TIMEOUT_DISABLED then LEASE_TIMEOUT_DISABLED
    else Clamp(requestedMs, MIN_LEASE_TIMEOUT_MS, MAX_LEASE_TIMEOUT_MS)
  }

  // ----- the table as a value, and what each operation makes of it -----

  datatype Table = Table(
    maxMonitors: u32, watchdogSecs: u32, monitors: map<u64, Monitor>, connectors: Connectors, updateSeq: nat)

  function Live(monitors: map<u64, Monitor>): set<u64> { set s | s in monitors :: monitors[s].displayId }

  /** The requested adapter, else the device-wide preference if it resolves, else the default. */
  function AdapterFor(requested: u64, select: u64 -> Result<u64>, preferred: u64): Result<u64> {
    if requested != 0 then select(requested)
    else if preferred != 0 && select(preferred).Ok? then Ok(preferred)
    else select(0)
  }

  function NewMonitor(watchdogSecs: u32, updateSeq: nat, nowMs: nat, req: CreateRequest,
                      modes: seq<Mode>, luid: u64, connector: u32): Monitor
  {
    var id := req.Identity();
    Monitor(
      req.sessionId, id, req.Ephemeral(), connector,
      if req.edidSerial != 0 then req.edidSerial else SerialFromDisplayId(id),
      if IsPermanentDisplayId(id) then PermanentProductCode(id % 0x1_0000_0000) else TemporaryProductCode(connector),
      modes, modes, None, None, updateSeq, luid, req.looks, req.flags,
      EffectiveLeaseTimeout(req.leaseTimeoutMs, watchdogSecs), nowMs, nowMs, 0)
  }

  ghost function CreatedTrusted(t: Table, nowMs: nat, req: CreateRequest, caps: Caps,
                                select: u64 -> Result<u64>, preferred: u64): (Table, Result<Monitor>)
  {
    if req.sessionId == 0 then (t, Err(BadMode))
    else if req.sessionId in t.monitors then (t, Err(DuplicateSession))
    else if |t.monitors| >= t.maxMonitors then (t, Err(MaxMonitors))
    else if req.Identity() in Live(t.monitors) then (t, Err(IdentityInUse))
    else
      match ValidList(req.modes, req.modeCount, req.bitDepth, req.hdr, caps)
      case Err(e) => (t, Err(e))
      case Ok(modes) =>
        match AdapterFor(req.adapterLuid, select, preferred)
        case Err(e) => (t, Err(e))
        case Ok(luid) =>
          var (connectors, got) := Acquired(t.connectors, req.Identity(), Live(t.monitors));
          match got
          case None => (t.(connectors := connectors), Err(MaxMonitors))
          case Some(connector) =>
            var m := NewMonitor(t.watchdogSecs, t.updateSeq, nowMs, req, modes, luid, connector);
            (t.(monitors := t.monitors[req.sessionId := m], connectors := connectors), Ok(m))
  }

  /** A client request: it cannot name an identity of the ephemeral or the permanent range. */
  ghost function Created(t: Table, nowMs: nat, req: CreateRequest, caps: Caps,
                         select: u64 -> Result<u64>, preferred: u64): (Table, Result<Monitor>)
  {
    if req.displayId >= EPHEMERAL_DISPLAY_ID_BASE || IsPermanentDisplayId(req.displayId) then (t, Err(IdentityInUse))
    else CreatedTrusted(t, nowMs, req, caps, select, preferred)
  }

  /** What an accepted UPDATE_MODES bought. */
  datatype ModeUpdate = ModeUpdate(
    targets: seq<Mode>, accepted: nat, rejected: nat, firstRejected: Option<nat>,
    queued: Option<nat>, pending: bool, refused: bool, blocked: Option<nat>)

  /** A remembered refusal outlives its evidence the moment anything commits. */
  function WithoutStaleBlock(m: Monitor, token: nat): Monitor {
    if m.blocked.Some? && m.blocked.value.token != token then m.(blocked := None) else m
  }

  /** The answer to a request that selected s, and the monitor afterwards; next is the id it may take. */
  function Answered(m: Monitor, s: TargetSelection, next: nat): (Monitor, ModeUpdate) {
    var pending := m.pendingTargets.Some?;
    if s.targets == [] then
      (m, ModeUpdate(m.targetModes, s.accepted, s.rejected, s.firstRejected, None, pending, true, None))
    else if m.blocked.Some? && m.blocked.value.targets == s.targets then
      (m, ModeUpdate(m.targetModes, s.accepted, s.rejected, s.firstRejected, None, pending, false,
                     Some(m.blocked.value.supersetIdx)))
    else if s.targets == m.TargetBase() then
      (m, ModeUpdate(s.targets, s.accepted, s.rejected, s.firstRejected, None, pending, false, None))
    else
      (m.(pendingTargets := Some(PendingTargets(next, s.targets)), blocked := None),
       ModeUpdate(s.targets, s.accepted, s.rejected, s.firstRejected, Some(next), true, false, None))
  }

  /** Depth and range come from the create-time list, never from the request. */
  function Requested(m: Monitor, specs: seq<ModeSpec>, caps: Caps): Result<seq<Mode>>
    requires m.modes != []
  {
    ValidList(specs, |specs|, m.modes[0].bitDepth.AsRaw(), if m.modes[0].hdr then 1 else 0, caps)
  }

  function Asked(m: Monitor, specs: seq<ModeSpec>, caps: Caps, next: nat): (Monitor, Result<ModeUpdate>)
    requires m.modes != []
  {
    match Requested(m, specs, caps)
    case Err(e) => (m, Err(e))
    case Ok(requested) =>
      var (m', update) := Answered(m, Selection(m.modes, requested), next);
      (m', Ok(update))
  }

  /** The table with one monitor replaced, and an update id handed out if one was queued. */
  function Replaced(t: Table, sessionId: u64, m: Monitor, queued: bool): Table {
    t.(monitors := t.monitors[sessionId := m], updateSeq := if queued then t.updateSeq + 1 else t.updateSeq)
  }

  predicate Queues(r: Result<ModeUpdate>) { r.Ok? && r.value.queued.Some? }

  function Updated(t: Table, sessionId: u64, specs: seq<ModeSpec>, caps: Caps, token: nat): (Table, Result<ModeUpdate>)
    requires sessionId in t.monitors ==> t.monitors[sessionId].modes != []
  {
    if sessionId !in t.monitors then (t, Err(NoSuchSession))
    else
      var (m, r) := Asked(WithoutStaleBlock(t.monitors[sessionId], token), specs, caps, t.updateSeq + 1);
      (Replaced(t, sessionId, m, Queues(r)), r)
  }

  datatype SettleOutcome = Settled | SupersededCommitted | Stale

  /** A settle for an id this monitor still listens to. */
  function Decided(m: Monitor, seqNo: nat, result: ModeUpdateResult, published: seq<Mode>): (Monitor, SettleOutcome) {
    var took := result.Commits() && published != [];
    var n := m.(settledSeq := seqNo);
    if !m.Outstanding(seqNo) then
      if took then (n.(targetModes := published, blocked := None), SupersededCommitted) else (n, Stale)
    else
      var p := n.(pendingTargets := None);
      match result
      case Applied => (p.(targetModes := if took then published else m.targetModes, blocked := None), Settled)
      case NotApplied => (p.(lastError := UPDATE_FAILED), Settled)
      case Blocked(idx, token) =>
        (p.(lastError := MODE_COMMITTED, blocked := Some(BlockedPush(m.pendingTargets.value.targets, idx, token))),
         Settled)
  }

  predicate Listens(t: Table, sessionId: u64, seqNo: nat) {
    sessionId in t.monitors && t.monitors[sessionId].settledSeq < seqNo <= t.updateSeq
  }

  function SettledWith(t: Table, sessionId: u64, seqNo: nat, result: ModeUpdateResult, published: seq<Mode>)
    : (Table, SettleOutcome)
  {
    if !Listens(t, sessionId, seqNo) then (t, Stale)
    else
      var (m, outcome) := Decided(t.monitors[sessionId], seqNo, result, published);
      (t.(monitors := t.monitors[sessionId := m]), outcome)
  }

  function Destroyed(t: Table, sessionId: u64): Table {
    if sessionId !in t.monitors then t
    else
      var m := t.monitors[sessionId];
      t.(monitors := t.monitors - {sessionId},
         connectors := if m.ephemeralIdentity then Released(t.connectors, m.displayId) else t.connectors)
  }

  function DestroyedEach(t: Table, ids: seq<u64>): Table
    decreases |ids|
  {
    if ids == [] then t else DestroyedEach(Destroyed(t, ids[0]), ids[1..])
  }

  function Pinged(t: Table, nowMs: nat, sessionId: u64): Table {
    if sessionId !in t.monitors then t
    else t.(monitors := t.monitors[sessionId := t.monitors[sessionId].(lastPingMs := nowMs)])
  }

  function Dead(t: Table, nowMs: nat): set<u64> { set s | s in t.monitors && t.monitors[s].Expired(nowMs) }

  ghost function Ticked(t: Table, nowMs: nat): Table { DestroyedEach(t, Ascending(Dead(t, nowMs))) }

  /** The milliseconds left on a lease. */
  function Remaining(m: Monitor, nowMs: nat): u32 {
    if m.leaseTimeoutMs == LEASE_TIMEOUT_DISABLED then U32_MAX
    else SaturatingSub(m.leaseTimeoutMs, SaturatingSub(nowMs, m.lastPingMs))
  }

  // ----- the table as an object -----

  class SessionTable {
    const maxMonitors: u32
    const watchdogSecs: u32
    var monitors: map<u64, Monitor>
    const connectors: ConnectorTable
    var updateSeq: nat

    function Value(): Table
      reads this, connectors
    {
      Table(maxMonitors, watchdogSecs, monitors, connectors.Value(), updateSeq)
    }

    constructor (maxMonitors: u32, watchdogSecs: u32)
      ensures fresh(connectors)
      ensures Value() == NewTable(maxMonitors, watchdogSecs)
    {
      var cap := if maxMonitors < ABI_MAX_MONITORS then maxMonitors else ABI_MAX_MONITORS;
      this.maxMonitors, this.watchdogSecs := cap, watchdogSecs;
      monitors, updateSeq := map[], 0;
      connectors := new ConnectorTable(cap);
    }

    method RestoreReservations(entries: seq<(u64, u32)>)
      modifies connectors
      ensures Value() == old(Value()).(connectors := Restored(old(connectors.Value()), entries))
    {
      connectors.Restore(entries);
    }

    method CreateTrusted(nowMs: nat, req: CreateRequest, caps: Caps, select: u64 -> Result<u64>, preferred: u64)
      returns (r: Result<Monitor>)
      modifies this, connectors
      ensures (Value(), r) == CreatedTrusted(old(Value()), nowMs, req, caps, select, preferred)
    {
      if req.sessionId == 0 { return Err(BadMode); }
      if req.sessionId in monitors { return Err(DuplicateSession); }
      if |monitors| >= maxMonitors { return Err(MaxMonitors); }
      var displayId := req.Identity();
      if exists s :: s in monitors && monitors[s].displayId == displayId {
        assert displayId in Live(monitors);
        return Err(IdentityInUse);
      }
      var modes := ValidateList(req.modes, req.modeCount, req.bitDepth, req.hdr, caps);
      if modes.Err? { return Err(modes.error); }
      var luid := AdapterFor(req.adapterLuid, select, preferred);
      if luid.Err? { return Err(luid.error); }
      var active := set s | s in monitors :: monitors[s].displayId;
      assert active == Live(monitors);
      var connector := connectors.Acquire(displayId, active);
      if connector.None? { return Err(MaxMonitors); }
      var m := NewMonitor(watchdogSecs, updateSeq, nowMs, req, modes.value, luid.value, connector.value);
      monitors := monitors[req.sessionId := m];
      return Ok(m);
    }

    method Create(nowMs: nat, req: CreateRequest, caps: Caps, select: u64 -> Result<u64>, preferred: u64)
      returns (r: Result<Monitor>)
      modifies this, connectors
      ensures (Value(), r) == Created(old(Value()), nowMs, req, caps, select, preferred)
    {
      if req.displayId >= EPHEMERAL_DISPLAY_ID_BASE || IsPermanentDisplayId(req.displayId) {
        return Err(IdentityInUse);
      }
      r := CreateTrusted(nowMs, req, caps, select, preferred);
    }

    method UpdateModes(sessionId: u64, specs: seq<ModeSpec>, caps: Caps, token: nat) returns (r: Result<ModeUpdate>)
      requires sessionId in monitors ==> monitors[sessionId].modes != []
      modifies `monitors, `updateSeq
      ensures (Value(), r) == Updated(old(Value()), sessionId, specs, caps, token)
    {
      if sessionId !in monitors { return Err(NoSuchSession); }
      monitors := monitors[sessionId := WithoutStaleBlock(monitors[sessionId], token)];
      var m := monitors[sessionId];
      var preferred := m.modes[0];
      var requested :=
        ValidateList(specs, |specs|, preferred.bitDepth.AsRaw(), if preferred.hdr then 1 else 0, caps);
      if requested.Err? { return Err(requested.error); }
      var s := SelectTargets(m.modes, requested.value);
      var pending := m.pendingTargets.Some?;
      if s.targets == [] {
        return Ok(ModeUpdate(m.targetModes, s.accepted, s.rejected, s.firstRejected, None, pending, true, None));
      }
      if m.blocked.Some? && m.blocked.value.targets == s.targets {
        return Ok(ModeUpdate(m.targetModes, s.accepted, s.rejected, s.firstRejected, None, pending, false,
                             Some(m.blocked.value.supersetIdx)));
      }
      if s.targets == m.TargetBase() {
        return Ok(ModeUpdate(s.targets, s.accepted, s.rejected, s.firstRejected, None, pending, false, None));
      }
      updateSeq := updateSeq + 1;
      m := m.(pendingTargets := Some(PendingTargets(updateSeq, s.targets)));
      m := m.(blocked := None);
      assert monitors[sessionId := m] == old(monitors)[sessionId := m];
      monitors := monitors[sessionId := m];
      return Ok(ModeUpdate(s.targets, s.accepted, s.rejected, s.firstRejected, Some(updateSeq), true, false, None));
    }

    method SettleModes(sessionId: u64, seqNo: nat, result: ModeUpdateResult, published: seq<Mode>)
      returns (outcome: SettleOutcome)
      modifies `monitors
      ensures (Value(), outcome) == SettledWith(old(Value()), sessionId, seqNo, result, published)
    {
      if sessionId !in monitors { return Stale; }
      var m := monitors[sessionId];
      if seqNo <= m.settledSeq || seqNo > updateSeq { return Stale; }
      m := m.(settledSeq := seqNo);
      var isCurrent := m.pendingTargets.Some? && m.pendingTargets.value.seqNo == seqNo;
      var took := result.Commits() && published != [];
      outcome := Settled;
      if !isCurrent {
        outcome := if took then SupersededCommitted else Stale;
        if took { m := m.(targetModes := published, blocked := None); }
      } else {
        var pending := m.pendingTargets.value;
        m := m.(pendingTargets := None);
        match result {
          case Applied =>
            if took { m := m.(targetModes := published); }
            m := m.(blocked := None);
          case NotApplied =>
            m := m.(lastError := UPDATE_FAILED);
          case Blocked(idx, token) =>
            m := m.(lastError := MODE_COMMITTED, blocked := Some(BlockedPush(pending.targets, idx, token)));
        }
      }
      monitors := monitors[sessionId := m];
    }

    method Destroy(sessionId: u64) returns (r: Result<Monitor>)
      modifies this, connectors
      ensures Value() == Destroyed(old(Value()), sessionId)
      ensures r == if sessionId in old(monitors) then Ok(old(monitors)[sessionId]) else Err(NoSuchSession)
    {
      if sessionId !in monitors { return Err(NoSuchSession); }
      var m := monitors[sessionId];
      monitors := monitors - {sessionId};
      if m.ephemeralIdentity { connectors.Release(m.displayId); }
      return Ok(m);
    }

    method Ping(nowMs: nat, sessionId: u64) returns (r: Result<()>)
      modifies `monitors
      ensures Value() == Pinged(old(Value()), nowMs, sessionId)
      ensures r == if sessionId in old(monitors) then Ok(()) else Err(NoSuchSession)
    {
      if sessionId !in monitors { return Err(NoSuchSession); }
      monitors := monitors[sessionId := monitors[sessionId].(lastPingMs := nowMs)];
      return Ok(());
    }

    method QueryLease(nowMs: nat, sessionId: u64) returns (r: Result<(u64, u32, u32)>)
      ensures r == if sessionId in monitors
                   then var m := monitors[sessionId]; Ok((m.displayId, m.connectorIndex, Remaining(m, nowMs)))
                   else Err(NoSuchSession)
    {
      if sessionId !in monitors { return Err(NoSuchSession); }
      var m := monitors[sessionId];
      return Ok((m.displayId, m.connectorIndex, Remaining(m, nowMs)));
    }

    /** The watchdog sweep: every session whose lease ran out goes, lowest id first. */
    method Tick(nowMs: nat) returns (reaped: seq<Monitor>)
      modifies this, connectors
      ensures Value() == Ticked(old(Value()), nowMs)
      ensures var dead := Ascending(Dead(old(Value()), nowMs)); AreThe(reaped, old(monitors), dead)
    {
      var expired := set s | s in monitors && monitors[s].Expired(nowMs);
      assert expired == Dead(Value(), nowMs);
      var dead := AscendingKeys(expired);
      assert forall j :: 0 <= j < |dead| ==> dead[j] in dead;
      reaped := Reap(dead);
    }

    method Reap(dead: seq<u64>) returns (reaped: seq<Monitor>)
      requires Rising(dead) && forall j :: 0 <= j < |dead| ==> dead[j] in monitors
      modifies this, connectors
      ensures Value() == DestroyedEach(old(Value()), dead)
      ensures AreThe(reaped, old(monitors), dead)
    {
      reaped := [];
      for i := 0 to |dead|
        invariant DestroyedEach(Value(), dead[i..]) == DestroyedEach(old(Value()), dead)
        invariant forall j :: i <= j < |dead| ==>
                    dead[j] in monitors && monitors[dead[j]] == old(monitors)[dead[j]]
        invariant AreThe(reaped, old(monitors), dead[..i])
      {
        assert dead[i..][1..] == dead[i + 1..] && dead[i..][0] == dead[i];
        var m := Destroy(dead[i]);
        reaped := reaped + [m.value];
        assert dead[..i + 1] == dead[..i] + [dead[i]];
      }
      assert dead[|dead|..] == [] && dead[..|dead|] == dead;
    }
  }

  ghost predicate AreThe(ms: seq<Monitor>, monitors: map<u64, Monitor>, ids: seq<u64>) {
    && |ms| == |ids|
    && forall i :: 0 <= i < |ids| ==> ids[i] in monitors && ms[i] == monitors[ids[i]]
  }

  function NewTable(maxMonitors: u32, watchdogSecs: u32): Table {
    var cap := if maxMonitors < ABI_MAX_MONITORS then maxMonitors else ABI_MAX_MONITORS;
    Table(cap, watchdogSecs, map[], NoConnectors(cap), 0)
  }
}
