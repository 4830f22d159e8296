/** The control dispatcher: every request becomes a table change, a reply, and the effects the shell owes. */
module Dispatch {
  import opened Prelude
  import opened Modes
  import opened Identity
  import opened Ordered
  import opened Persist
  import opened Session
  import opened Permanent

  const NOT_HANDSHAKEN := -10
  const ABI_MAX_RING_SLOTS: u32 := 8

  function Code(e: Error): int {
    match e
    case MaxMonitors => -2
    case BadMode => -3
    case BadBitDepth => -4
    case HdrUnsupported => -5
    case NoAdapter => -6
    case DuplicateSession => -7
    case NoSuchSession => -8
    case IdentityInUse => -11
    case BadPool => -12
  }

  /** What the shell must do after a dispatch, in order. */
  datatype Effect =
    | PlugMonitor(sessionId: u64, displayId: u64, connectorIndex: u32, modes: seq<Mode>, targets: seq<Mode>,
                  adapterLuid: u64, ringSlots: u32)
    | UnplugMonitor(sessionId: u64)
    | PushModes(sessionId: u64, updateSeq: nat, targets: seq<Mode>)
    | PersistState(blob: seq<u8>)

  datatype Status = Complete | BadBuffer

  datatype Config = Config(caps: Caps, maxMonitors: u32, watchdogSecs: u32, ringSlots: u32)
  {
    function RingSlots(): u32 { Clamp(ringSlots, 2, ABI_MAX_RING_SLOTS) }

    function TableCap(): u32 { if maxMonitors < ABI_MAX_MONITORS then maxMonitors else ABI_MAX_MONITORS }
  }

  datatype Device = Device(cfg: Config, table: Table, preferredAdapter: u64, pool: PoolConfig)

  datatype CreateReply = CreateReply(result: int, displayId: u64, ringSlots: u32, connectorIndex: u32)

  datatype UpdateModesReply = UpdateModesReply(
    result: int, modeCount: nat, accepted: nat, requested: nat, rejected: nat, firstRejected: Option<nat>,
    partial: bool, pending: bool, blocked: bool, blockingModeIdx: Option<nat>)
  {
    predicate FullyInForce() { result == 0 && !pending && !partial }

    predicate WorthRetrying() { !blocked }
  }

  function PlugEffect(m: Monitor, ringSlots: u32): Effect {
    PlugMonitor(m.sessionId, m.displayId, m.connectorIndex, m.modes, m.targetModes, m.adapterLuid, ringSlots)
  }

  /** What a PersistState blob records of the device. */
  ghost function Saved(dev: Device): PersistedState {
    PersistedState(ReservationList(dev.table.connectors.reservations),
                   if dev.pool.count > 0 then Some(dev.pool) else None)
  }

  ghost function PersistEffect(dev: Device): Effect { PersistState(Serialized(Saved(dev))) }

  // ----- CREATE_MONITOR and DESTROY_MONITOR -----

  ghost function CreateAnswer(dev: Device, r: Result<Monitor>): (CreateReply, seq<Effect>) {
    match r
    case Err(e) => (CreateReply(Code(e), 0, 0, 0), [])
    case Ok(m) =>
      (CreateReply(0, m.displayId, dev.cfg.RingSlots(), m.connectorIndex),
       [PlugEffect(m, dev.cfg.RingSlots()), PersistEffect(dev)])
  }

  ghost function AfterCreate(dev: Device, handshaken: bool, nowMs: nat, req: CreateRequest,
                             select: u64 -> Result<u64>): (Device, CreateReply, seq<Effect>)
  {
    if !handshaken then (dev, CreateReply(NOT_HANDSHAKEN, 0, 0, 0), [])
    else
      var (t, r) := Created(dev.table, nowMs, req, dev.cfg.caps, select, dev.preferredAdapter);
      var dev' := dev.(table := t);
      var (reply, effects) := CreateAnswer(dev', r);
      (dev', reply, effects)
  }

  ghost function AfterDestroy(dev: Device, handshaken: bool, sessionId: u64): (Device, int, seq<Effect>) {
    if !handshaken then (dev, NOT_HANDSHAKEN, [])
    else if sessionId !in dev.table.monitors then (dev, Code(NoSuchSession), [])
    else
      var dev' := dev.(table := Destroyed(dev.table, sessionId));
      (dev', 0, [UnplugMonitor(sessionId), PersistEffect(dev')])
  }

  /** Effects travel only with a reply that fits the caller's buffer. */
  function Delivered(fits: bool, effects: seq<Effect>): seq<Effect> { if fits then effects else [] }

  // ----- UPDATE_MODES -----

  function UpdateReply(update: ModeUpdate, requested: nat): UpdateModesReply {
    UpdateModesReply(
      if update.blocked.Some? then MODE_COMMITTED else if update.refused then Code(BadMode) else 0,
      |update.targets|, update.accepted, requested, update.rejected, update.firstRejected,
      update.rejected > 0, update.pending, update.blocked.Some?, update.blocked)
  }

  function RefusedReply(code: int, offered: nat, requested: nat): UpdateModesReply {
    UpdateModesReply(code, offered, 0, requested, 0, None, false, false, false, None)
  }

  /** The list offered now, 0 for an unknown session. */
  function Offered(t: Table, sessionId: u64): nat {
    if sessionId in t.monitors then |t.monitors[sessionId].targetModes| else 0
  }

  function UpdateAnswer(offered: nat, sessionId: u64, count: nat, r: Result<ModeUpdate>)
    : (UpdateModesReply, seq<Effect>)
  {
    match r
    case Err(e) => (RefusedReply(Code(e), offered, count), [])
    case Ok(update) =>
      (UpdateReply(update, count),
       if update.queued.Some? then [PushModes(sessionId, update.queued.value, update.targets)] else [])
  }

  predicate CountOk(count: nat, specs: seq<ModeSpec>) {
    0 < count <= MAX_MODES_PER_MONITOR && count <= |specs|
  }

  function AfterUpdate(dev: Device, handshaken: bool, sessionId: u64, specs: seq<ModeSpec>, count: u32, token: nat)
    : (Device, UpdateModesReply, seq<Effect>)
    requires sessionId in dev.table.monitors ==> dev.table.monitors[sessionId].modes != []
  {
    var offered := Offered(dev.table, sessionId);
    if !handshaken then (dev, RefusedReply(NOT_HANDSHAKEN, offered, count), [])
    else if !CountOk(count, specs) then (dev, RefusedReply(Code(BadMode), offered, count), [])
    else
      var (t, r) := Updated(dev.table, sessionId, specs[..count], dev.cfg.caps, token);
      var (reply, effects) := UpdateAnswer(offered, sessionId, count, r);
      (dev.(table := t), reply, effects)
  }

  lemma QueuedIsNeitherRefusedNorBlocked(t: Table, sessionId: u64, specs: seq<ModeSpec>, caps: Caps, token: nat)
    requires sessionId in t.monitors ==> t.monitors[sessionId].modes != []
    ensures var r := Updated(t, sessionId, specs, caps, token).1;
            Queues(r) ==> !r.value.refused && r.value.blocked.None?
  {
  }

  // ----- the permanent pool and the watchdog -----

  /** The members of an index range that are live are destroyed, lowest first. */
  function AfterDestroyMembers(t: Table, from: u32, end: u32): (Table, seq<Effect>)
    requires from <= end
    decreases end - from
  {
    if from == end then (t, [])
    else
      var sid := PermanentSessionId(from);
      var (t', effects) := AfterDestroyMembers(Destroyed(t, sid), from + 1, end);
      (t', if sid in t.monitors then [UnplugMonitor(sid)] + effects else effects)
  }

  /** How one member of the pool is created. */
  ghost function Creator(cfg: Config, preferred: u64, nowMs: nat, desired: PoolConfig, select: u64 -> Result<u64>)
    : (Table, u32) -> (Table, Result<Monitor>)
  {
    (t: Table, index: u32) => CreatedTrusted(t, nowMs, MemberRequest(desired, index), cfg.caps, select, preferred)
  }

  /** Members are created lowest first until one fails; the count recorded so far is `created`. */
  ghost function AfterCreateMembers(create: (Table, u32) -> (Table, Result<Monitor>), slots: u32, t: Table,
                                    from: u32, end: u32, created: u32): (Table, int, u32, seq<Effect>)
    requires from <= end
    decreases end - from
  {
    if from == end then (t, 0, created, [])
    else
      var (t', r) := create(t, from);
      match r
      case Err(e) => (t', Code(e), created, [])
      case Ok(m) =>
        var (t'', result, n, effects) := AfterCreateMembers(create, slots, t', from + 1, end, from + 1);
        (t'', result, n, [PlugEffect(m, slots)] + effects)
  }

  function MinU32(a: u32, b: u32): u32 { if a < b then a else b }

  ghost function AfterApplyPool(dev: Device, nowMs: nat, desired: PoolConfig, select: u64 -> Result<u64>)
    : (Device, int, seq<Effect>)
  {
    var plan := Reconcile(dev.pool, desired);
    var (t, unplugs) := AfterDestroyMembers(dev.table, plan.destroyFrom, plan.destroyTo);
    var start := if plan.createFrom == plan.createTo then desired.count else 0;
    var (t', result, created, plugs) :=
      AfterCreateMembers(Creator(dev.cfg, dev.preferredAdapter, nowMs, desired, select), dev.cfg.RingSlots(), t,
                         plan.createFrom, plan.createTo, start);
    (dev.(table := t', pool := desired.(count := MinU32(created, desired.count))), result, unplugs + plugs)
  }

  ghost function AfterSetPool(dev: Device, handshaken: bool, nowMs: nat, desired: PoolConfig,
                              select: u64 -> Result<u64>): (Device, int, seq<Effect>)
  {
    if !handshaken then (dev, NOT_HANDSHAKEN, [])
    else if !ValidPool(desired, dev.cfg.caps, dev.cfg.TableCap()) then (dev, Code(BadPool), [])
    else
      var (dev', result, effects) := AfterApplyPool(dev, nowMs, desired, select);
      (dev', result, effects + [PersistEffect(dev')])
  }

  function Unplugs(ids: seq<u64>): (r: seq<Effect>)
    ensures |r| == |ids|
  {
    seq(|ids|, i requires 0 <= i < |ids| => UnplugMonitor(ids[i]))
  }

  ghost function AfterTick(dev: Device, nowMs: nat): (Device, seq<Effect>) {
    var dead := Ascending(Dead(dev.table, nowMs));
    var dev' := dev.(table := Ticked(dev.table, nowMs));
    (dev', if dead == [] then [] else Unplugs(dead) + [PersistEffect(dev')])
  }

  /** Persisted pool members come back at device start. */
  ghost function AfterStartup(dev: Device, nowMs: nat, select: u64 -> Result<u64>): (Device, seq<Effect>) {
    if dev.pool.count > 0 && ValidPool(dev.pool, dev.cfg.caps, dev.cfg.TableCap()) then
      var (dev', _, effects) := AfterApplyPool(dev.(pool := dev.pool.(count := 0)), nowMs, dev.pool, select);
      (dev', effects)
    else (dev, [])
  }

  // ----- the device as an object -----

  class DeviceState {
    const cfg: Config
    const table: SessionTable
    var preferredAdapter: u64
    var pool: PoolConfig

    function Value(): Device
      reads this, table, table.connectors
    {
      Device(cfg, table.Value(), preferredAdapter, pool)
    }

    constructor (cfg: Config, persisted: Option<seq<u8>>)
      ensures fresh(table) && fresh(table.connectors)
      ensures Value() == NewDevice(cfg, persisted)
    {
      this.cfg := cfg;
      table := new SessionTable(cfg.maxMonitors, cfg.watchdogSecs);
      preferredAdapter, pool := 0, EmptyPool();
      new;
      if persisted.Some? {
        var restored := Parse(persisted.value);
        if restored.Some? {
          table.RestoreReservations(restored.value.reservations);
          if restored.value.pool.Some? { pool := restored.value.pool.value; }
        }
      }
    }

    method Persist() returns (e: Effect)
      ensures e == PersistEffect(Value())
    {
      var reservations := ListReservations(table.connectors.reservations);
      var blob := Serialize(PersistedState(reservations, if pool.count > 0 then Some(pool) else None));
      return PersistState(blob);
    }

    method CreateMonitor(handshaken: bool, nowMs: nat, req: CreateRequest, select: u64 -> Result<u64>, fits: bool)
      returns (status: Status, reply: CreateReply, effects: seq<Effect>)
      modifies this, table, table.connectors
      ensures var (dev', reply', effects') := AfterCreate(old(Value()), handshaken, nowMs, req, select);
              && Value() == dev' && reply == reply'
              && effects == Delivered(fits, effects') && (status == Complete <==> fits)
    {
      reply, effects := CreateReply(0, 0, 0, 0), [];
      if !handshaken {
        reply := reply.(result := NOT_HANDSHAKEN);
      } else {
        var slots := cfg.RingSlots();
        var created := table.Create(nowMs, req, cfg.caps, select, preferredAdapter);
        match created {
          case Ok(m) =>
            reply := CreateReply(0, m.displayId, slots, m.connectorIndex);
            var saved := Persist();
            effects := [PlugEffect(m, slots), saved];
          case Err(e) =>
            reply := reply.(result := Code(e));
        }
      }
      if !fits { return BadBuffer, reply, []; }
      status := Complete;
    }

    method DestroyMonitor(handshaken: bool, sessionId: u64, fits: bool)
      returns (status: Status, result: int, effects: seq<Effect>)
      modifies this, table, table.connectors
      ensures var (dev', result', effects') := AfterDestroy(old(Value()), handshaken, sessionId);
              && Value() == dev' && result == result'
              && effects == Delivered(fits, effects') && (status == Complete <==> fits)
    {
      effects := [];
      if !handshaken {
        result := NOT_HANDSHAKEN;
      } else {
        var destroyed := table.Destroy(sessionId);
        if destroyed.Ok? {
          result := 0;
          var saved := Persist();
          effects := [UnplugMonitor(sessionId), saved];
        } else {
          result := Code(destroyed.error);
        }
      }
      if !fits { return BadBuffer, result, []; }
      status := Complete;
    }

    /** Unlike the other requests this one looks at the output buffer first. */
    method UpdateModes(handshaken: bool, sessionId: u64, specs: seq<ModeSpec>, count: u32, token: nat, fits: bool)
      returns (status: Status, reply: UpdateModesReply, effects: seq<Effect>)
      requires sessionId in table.monitors ==> table.monitors[sessionId].modes != []
      modifies this, table, table.connectors
      ensures status == Complete <==> fits
      ensures !fits ==> Value() == old(Value()) && effects == []
      ensures fits ==> (Value(), reply, effects) == AfterUpdate(old(Value()), handshaken, sessionId, specs, count, token)
    {
      effects := [];
      var offered := if sessionId in table.monitors then |table.monitors[sessionId].targetModes| else 0;
      reply := RefusedReply(0, offered, count);
      if !fits { return BadBuffer, reply, []; }
      if !handshaken {
        reply := reply.(result := NOT_HANDSHAKEN);
      } else if count == 0 || count > MAX_MODES_PER_MONITOR || count > |specs| {
        reply := reply.(result := Code(BadMode));
      } else {
        QueuedIsNeitherRefusedNorBlocked(table.Value(), sessionId, specs[..count], cfg.caps, token);
        var updated := table.UpdateModes(sessionId, specs[..count], cfg.caps, token);
        match updated {
          case Ok(update) =>
            reply := reply.(modeCount := |update.targets|, rejected := update.rejected,
                            firstRejected := update.firstRejected, accepted := update.accepted,
                            partial := update.rejected > 0, pending := update.pending);
            if update.blocked.Some? {
              reply := reply.(result := MODE_COMMITTED, blocked := true, blockingModeIdx := update.blocked);
            } else if update.refused {
              reply := reply.(result := Code(BadMode));
            } else if update.queued.Some? {
              effects := [PushModes(sessionId, update.queued.value, update.targets)];
            }
          case Err(e) =>
            reply := reply.(result := Code(e));
        }
      }
      status := Complete;
    }

    method ApplyPool(nowMs: nat, desired: PoolConfig, select: u64 -> Result<u64>)
      returns (result: int, effects: seq<Effect>)
      modifies this, table, table.connectors
      ensures (Value(), result, effects) == AfterApplyPool(old(Value()), nowMs, desired, select)
    {
      var plan := Reconcile(pool, desired);
      effects := DestroyMembers(plan.destroyFrom, plan.destroyTo);
      var created := if plan.createFrom == plan.createTo then desired.count else 0;
      var plugs;
      result, created, plugs := CreateMembers(nowMs, desired, plan.createFrom, plan.createTo, created, select);
      effects := effects + plugs;
      pool := desired.(count := MinU32(created, desired.count));
    }

    method DestroyMembers(from: u32, end: u32) returns (effects: seq<Effect>)
      requires from <= end
      modifies table, table.connectors
      ensures Value() == old(Value()).(table := table.Value())
      ensures (table.Value(), effects) == AfterDestroyMembers(old(table.Value()), from, end)
    {
      effects := [];
      var index := from;
      ghost var whole := AfterDestroyMembers(table.Value(), from, end);
      assert [] + whole.1 == whole.1;
      while index < end
        invariant from <= index <= end
        invariant AfterDestroyMembers(table.Value(), index, end).0 == whole.0
        invariant effects + AfterDestroyMembers(table.Value(), index, end).1 == whole.1
      {
        var sid := PermanentSessionId(index);
        ghost var rest := AfterDestroyMembers(Destroyed(table.Value(), sid), index + 1, end).1;
        assert effects + ([UnplugMonitor(sid)] + rest) == (effects + [UnplugMonitor(sid)]) + rest;
        var destroyed := table.Destroy(sid);
        if destroyed.Ok? { effects := effects + [UnplugMonitor(sid)]; }
        index := index + 1;
      }
      assert effects + [] == effects;
    }

    method CreateMembers(nowMs: nat, desired: PoolConfig, from: u32, end: u32, start: u32,
                         select: u64 -> Result<u64>)
      returns (result: int, created: u32, effects: seq<Effect>)
      requires from <= end
      modifies table, table.connectors
      ensures Value() == old(Value()).(table := table.Value())
      ensures (table.Value(), result, created, effects) ==
              AfterCreateMembers(Creator(cfg, old(preferredAdapter), nowMs, desired, select), cfg.RingSlots(),
                                 old(table.Value()), from, end, start)
    {
      result, created, effects := 0, start, [];
      ghost var create := Creator(cfg, preferredAdapter, nowMs, desired, select);
      var slots := cfg.RingSlots();
      ghost var whole := AfterCreateMembers(create, slots, table.Value(), from, end, start);
      assert [] + whole.3 == whole.3;
      var index := from;
      while index < end
        invariant from <= index <= end && result == 0 && preferredAdapter == old(preferredAdapter)
        invariant var (t, r, n, rest) := AfterCreateMembers(create, slots, table.Value(), index, end, created);
                  t == whole.0 && r == whole.1 && n == whole.2 && effects + rest == whole.3
      {
        var m := table.CreateTrusted(nowMs, MemberRequest(desired, index), cfg.caps, select, preferredAdapter);
        if m.Err? {
          assert effects + [] == effects;
          result := Code(m.error);
          return;
        }
        var plug := PlugEffect(m.value, slots);
        ghost var rest := AfterCreateMembers(create, slots, table.Value(), index + 1, end, index + 1).3;
        assert effects + ([plug] + rest) == (effects + [plug]) + rest;
        effects, created := effects + [plug], index + 1;
        index := index + 1;
      }
      assert effects + [] == effects;
    }

    method SetPermanentPool(handshaken: bool, nowMs: nat, desired: PoolConfig, select: u64 -> Result<u64>, fits: bool)
      returns (status: Status, result: int, effects: seq<Effect>)
      modifies this, table, table.connectors
      ensures var (dev', result', effects') := AfterSetPool(old(Value()), handshaken, nowMs, desired, select);
              && Value() == dev' && result == result'
              && effects == Delivered(fits, effects') && (status == Complete <==> fits)
    {
      effects := [];
      if !handshaken {
        result := NOT_HANDSHAKEN;
      } else if !ValidPool(desired, cfg.caps, cfg.TableCap()) {
        result := Code(BadPool);
      } else {
        result, effects := ApplyPool(nowMs, desired, select);
        var saved := Persist();
        effects := effects + [saved];
      }
      if !fits { return BadBuffer, result, []; }
      status := Complete;
    }

    method WatchdogTick(nowMs: nat) returns (effects: seq<Effect>)
      requires forall s :: s in table.monitors ==> table.monitors[s].sessionId == s
      modifies this, table, table.connectors
      ensures (Value(), effects) == AfterTick(old(Value()), nowMs)
    {
      ghost var dead := Ascending(Dead(table.Value(), nowMs));
      var reaped := table.Tick(nowMs);
      effects := UnplugEach(reaped, dead);
      if effects != [] {
        var saved := Persist();
        effects := effects + [saved];
      }
    }

    method UnplugEach(reaped: seq<Monitor>, ghost ids: seq<u64>) returns (effects: seq<Effect>)
      requires |reaped| == |ids| && forall i :: 0 <= i < |ids| ==> reaped[i].sessionId == ids[i]
      ensures effects == Unplugs(ids)
    {
      effects := [];
      for i := 0 to |reaped|
        invariant effects == Unplugs(ids)[..i]
      {
        effects := effects + [UnplugMonitor(reaped[i].sessionId)];
      }
    }

    method Startup(nowMs: nat, select: u64 -> Result<u64>) returns (effects: seq<Effect>)
      modifies this, table, table.connectors
      ensures (Value(), effects) == AfterStartup(old(Value()), nowMs, select)
    {
      effects := [];
      if pool.count > 0 && ValidPool(pool, cfg.caps, cfg.TableCap()) {
        var desired := pool;
        pool := pool.(count := 0);
        var result;
        result, effects := ApplyPool(nowMs, desired, select);
      }
    }
  }

  /** What a stored blob is read as; nothing usable means a fresh start. */
  function Recorded(stored: Option<seq<u8>>): PersistedState {
    if stored.Some? && Parsed(stored.value).Some? then Parsed(stored.value).value else PersistedState([], None)
  }

  function NewDevice(cfg: Config, persisted: Option<seq<u8>>): Device {
    var restored := Recorded(persisted);
    var t := NewTable(cfg.maxMonitors, cfg.watchdogSecs);
    Device(cfg, t.(connectors := Restored(t.connectors, restored.reservations)), 0,
           if restored.pool.Some? then restored.pool.value else EmptyPool())
  }
}
