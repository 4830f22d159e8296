/** What every operation on the monitor table keeps, and what its replies promise. */
module SessionProofs {
  import opened Prelude
  import opened Modes
  import opened Identity
  import opened ModePush
  import opened CommittedPaths
  import opened Ordered
  import opened Session

  /** A published list is a non-empty part of the create-time list. */
  ghost predicate Publishable(targets: seq<Mode>, superset: seq<Mode>) {
    targets != [] && Within(targets, superset)
  }

  ghost predicate ListsOk(m: Monitor, updateSeq: nat) {
    && m.modes != []
    && Publishable(m.targetModes, m.modes)
    && m.settledSeq <= updateSeq
    && (m.pendingTargets.Some? ==>
          && Publishable(m.pendingTargets.value.targets, m.modes)
          && m.settledSeq < m.pendingTargets.value.seqNo <= updateSeq
          && m.blocked.None?)
    && (m.blocked.Some? ==> Publishable(m.blocked.value.targets, m.modes))
  }

  /** A live identity holds its reservation, so its connector is its own. */
  ghost predicate HoldsConnector(m: Monitor, c: Connectors) {
    m.displayId in c.reservations && c.reservations[m.displayId] == m.connectorIndex
  }

  ghost predicate MonitorOk(m: Monitor, s: u64, c: Connectors, updateSeq: nat) {
    && s != 0 && m.sessionId == s
    && (m.ephemeralIdentity ==> m.displayId >= EPHEMERAL_DISPLAY_ID_BASE)
    && ListsOk(m, updateSeq)
    && HoldsConnector(m, c)
  }

  ghost predicate MonitorsOk(t: Table) {
    forall s :: s in t.monitors ==> MonitorOk(t.monitors[s], s, t.connectors, t.updateSeq)
  }

  ghost predicate DistinctIdentities(monitors: map<u64, Monitor>) {
    forall s, r :: s in monitors && r in monitors && s != r ==> monitors[s].displayId != monitors[r].displayId
  }

  ghost predicate TableInv(t: Table) {
    && t.connectors.maxConnectors == t.maxMonitors
    && |t.monitors| <= t.maxMonitors <= ABI_MAX_MONITORS
    && Injective(t.connectors)
    && DistinctIdentities(t.monitors)
    && MonitorsOk(t)
  }

  lemma NewTableInv(maxMonitors: u32, watchdogSecs: u32, entries: seq<(u64, u32)>)
    ensures var t := NewTable(maxMonitors, watchdogSecs);
            TableInv(t.(connectors := Restored(t.connectors, entries)))
  {
    RestoreIsInjective(NewTable(maxMonitors, watchdogSecs).connectors, entries);
    RestoreKeepsTheCap(NewTable(maxMonitors, watchdogSecs).connectors, entries);
  }

  lemma {:induction false} RestoreKeepsTheCap(c: Connectors, entries: seq<(u64, u32)>)
    ensures Restored(c, entries).maxConnectors == c.maxConnectors
    decreases |entries|
  {
    if entries != [] {
      var (d, connector) := entries[0];
      var c' := if connector < c.maxConnectors && !Taken(c, connector) then Reserve(c, d, connector) else c;
      RestoreKeepsTheCap(c', entries[1..]);
    }
  }

  /** Live connectors are pairwise distinct and below the cap. */
  lemma LiveConnectorsAreDistinct(t: Table, s: u64, r: u64)
    requires TableInv(t) && s in t.monitors && r in t.monitors && s != r
    ensures t.monitors[s].connectorIndex != t.monitors[r].connectorIndex
    ensures t.monitors[s].connectorIndex < t.maxMonitors
  {
  }

  // ----- create -----

  lemma {:induction false} NoMoreIdentitiesThanSessions(monitors: map<u64, Monitor>)
    ensures |Live(monitors)| <= |monitors|
    decreases |monitors|
  {
    if monitors == map[] {
      assert Live(monitors) == {};
    } else {
      var s :| s in monitors;
      var rest := monitors - {s};
      assert rest.Keys == monitors.Keys - {s};
      NoMoreIdentitiesThanSessions(rest);
      forall d | d in Live(monitors) ensures d in Live(rest) + {monitors[s].displayId} {
        var r :| r in monitors && monitors[r].displayId == d;
        assert r != s ==> r in rest && rest[r].displayId == d;
      }
      SubsetSize(Live(monitors), Live(rest) + {monitors[s].displayId});
    }
  }

  /** Everything CREATE_MONITOR checks before it touches a connector. */
  ghost predicate Admits(t: Table, req: CreateRequest, caps: Caps, select: u64 -> Result<u64>, preferred: u64) {
    && req.sessionId != 0 && req.sessionId !in t.monitors
    && |t.monitors| < t.maxMonitors
    && req.Identity() !in Live(t.monitors)
    && ValidList(req.modes, req.modeCount, req.bitDepth, req.hdr, caps).Ok?
    && AdapterFor(req.adapterLuid, select, preferred).Ok?
  }

  /** Nothing else can fail: a create goes through exactly when its checks pass, and otherwise
      leaves the table, reservations and ages included, as it was. */
  lemma CreateFailsCleanly(t: Table, nowMs: nat, req: CreateRequest, caps: Caps,
                           select: u64 -> Result<u64>, preferred: u64)
    requires TableInv(t)
    ensures var (t', r) := CreatedTrusted(t, nowMs, req, caps, select, preferred);
            && (r.Ok? <==> Admits(t, req, caps, select, preferred))
            && (r.Err? ==> t' == t)
  {
    NoMoreIdentitiesThanSessions(t.monitors);
    if |t.monitors| < t.maxMonitors {
      AcquireSucceedsBelowTheCap(t.connectors, req.Identity(), Live(t.monitors));
    }
  }

  /** What a refused create is told: the first of the checks it fails. */
  lemma CreateIsToldWhy(t: Table, nowMs: nat, req: CreateRequest, caps: Caps, select: u64 -> Result<u64>, preferred: u64)
    requires TableInv(t)
    ensures var r := CreatedTrusted(t, nowMs, req, caps, select, preferred).1;
            var known, full, inUse :=
              req.sessionId in t.monitors, |t.monitors| >= t.maxMonitors, req.Identity() in Live(t.monitors);
            var modes := ValidList(req.modes, req.modeCount, req.bitDepth, req.hdr, caps);
            r.Err? ==>
              && (req.sessionId == 0 ==> r.error == BadMode)
              && (req.sessionId != 0 && known ==> r.error == DuplicateSession)
              && (req.sessionId != 0 && !known && full ==> r.error == MaxMonitors)
              && (req.sessionId != 0 && !known && !full && inUse ==> r.error == IdentityInUse)
              && (req.sessionId != 0 && !known && !full && !inUse && modes.Err? ==> r.error == modes.error)
              && (req.sessionId != 0 && !known && !full && !inUse && modes.Ok? ==>
                    AdapterFor(req.adapterLuid, select, preferred) == Err(r.error))
  {
    CreateFailsCleanly(t, nowMs, req, caps, select, preferred);
  }

  /** The adapter of a new monitor: the one asked for, else the preferred one while it exists, else the default. */
  lemma CreatedOnAdapter(t: Table, nowMs: nat, req: CreateRequest, caps: Caps, select: u64 -> Result<u64>, preferred: u64)
    requires CreatedTrusted(t, nowMs, req, caps, select, preferred).1.Ok?
    ensures var luid := CreatedTrusted(t, nowMs, req, caps, select, preferred).1.value.adapterLuid;
            && (req.adapterLuid != 0 ==> select(req.adapterLuid) == Ok(luid))
            && (req.adapterLuid == 0 && preferred != 0 && select(preferred).Ok? ==> luid == preferred)
            && (req.adapterLuid == 0 && (preferred == 0 || select(preferred).Err?) ==> select(0) == Ok(luid))
  {
  }

  lemma AddingOneKeepsIdentities(monitors: map<u64, Monitor>, s: u64, m: Monitor)
    requires DistinctIdentities(monitors) && s !in monitors && m.displayId !in Live(monitors)
    ensures DistinctIdentities(monitors[s := m])
    ensures |monitors[s := m]| == |monitors| + 1
  {
    forall r | r in monitors ensures monitors[r].displayId != m.displayId {
      assert monitors[r].displayId in Live(monitors);
    }
  }

  lemma AddingOneKeepsMonitorsOk(t: Table, s: u64, m: Monitor, c: Connectors)
    requires MonitorsOk(t) && MonitorOk(m, s, c, t.updateSeq)
    requires forall d :: d in t.connectors.reservations && d in Live(t.monitors) ==>
               d in c.reservations && c.reservations[d] == t.connectors.reservations[d]
    ensures MonitorsOk(t.(monitors := t.monitors[s := m], connectors := c))
  {
    var t' := t.(monitors := t.monitors[s := m], connectors := c);
    forall r | r in t'.monitors ensures MonitorOk(t'.monitors[r], r, c, t.updateSeq) {
      if r != s {
        assert MonitorOk(t.monitors[r], r, t.connectors, t.updateSeq);
        assert t.monitors[r].displayId in Live(t.monitors);
      }
    }
  }

  /** A created monitor offers everything it was created with, has nothing outstanding, listens
      to no update issued so far, and costs no other session anything. */
  lemma CreateKeepsInv(t: Table, nowMs: nat, req: CreateRequest, caps: Caps,
                       select: u64 -> Result<u64>, preferred: u64)
    requires TableInv(t)
    requires !req.Ephemeral() ==> req.displayId < EPHEMERAL_DISPLAY_ID_BASE
    ensures var (t', r) := CreatedTrusted(t, nowMs, req, caps, select, preferred);
            && TableInv(t') && t'.maxMonitors == t.maxMonitors
            && (r.Ok? ==>
                  && t'.monitors == t.monitors[req.sessionId := r.value]
                  && req.sessionId !in t.monitors
                  && t'.updateSeq == t.updateSeq == r.value.settledSeq
                  && r.value.sessionId == req.sessionId
                  && r.value.targetModes == r.value.modes
                  && r.value.pendingTargets.None? && r.value.blocked.None?
                  && (req.Identity() in t.connectors.reservations ==>
                        r.value.connectorIndex == t.connectors.reservations[req.Identity()]))
  {
    CreateFailsCleanly(t, nowMs, req, caps, select, preferred);
    if Admits(t, req, caps, select, preferred) {
      var m := AdmittedIsMade(t, nowMs, req, caps, select, preferred);
      AddedKeepsInv(t, req, m);
    }
  }

  /** What a create that goes through makes. */
  lemma AdmittedIsMade(t: Table, nowMs: nat, req: CreateRequest, caps: Caps,
                       select: u64 -> Result<u64>, preferred: u64) returns (m: Monitor)
    requires TableInv(t) && Admits(t, req, caps, select, preferred)
    ensures var (c, connector) := Acquired(t.connectors, req.Identity(), Live(t.monitors));
            && connector == Some(m.connectorIndex)
            && CreatedTrusted(t, nowMs, req, caps, select, preferred) ==
               (t.(monitors := t.monitors[req.sessionId := m], connectors := c), Ok(m))
    ensures m.sessionId == req.sessionId && m.displayId == req.Identity() && m.ephemeralIdentity == req.Ephemeral()
    ensures ValidList(req.modes, req.modeCount, req.bitDepth, req.hdr, caps) == Ok(m.modes) && m.modes != []
    ensures m.targetModes == m.modes && m.pendingTargets.None? && m.blocked.None? && m.settledSeq == t.updateSeq
    ensures m.looks == req.looks && m.flags == req.flags
    ensures m.leaseTimeoutMs == EffectiveLeaseTimeout(req.leaseTimeoutMs, t.watchdogSecs)
  {
    CreateFailsCleanly(t, nowMs, req, caps, select, preferred);
    ValidListExactly(req.modes, req.modeCount, req.bitDepth, req.hdr, caps);
    m := CreatedTrusted(t, nowMs, req, caps, select, preferred).1.value;
  }

  lemma AddedKeepsInv(t: Table, req: CreateRequest, m: Monitor)
    requires !req.Ephemeral() ==> req.displayId < EPHEMERAL_DISPLAY_ID_BASE
    requires TableInv(t) && req.sessionId != 0 && req.sessionId !in t.monitors && |t.monitors| < t.maxMonitors
    requires req.Identity() !in Live(t.monitors)
    requires Acquired(t.connectors, req.Identity(), Live(t.monitors)).1 == Some(m.connectorIndex)
    requires m.sessionId == req.sessionId && m.displayId == req.Identity() && m.ephemeralIdentity == req.Ephemeral()
    requires m.modes != [] && m.targetModes == m.modes && m.pendingTargets.None? && m.blocked.None?
    requires m.settledSeq == t.updateSeq
    ensures var c := Acquired(t.connectors, req.Identity(), Live(t.monitors)).0;
            TableInv(t.(monitors := t.monitors[req.sessionId := m], connectors := c))
    ensures req.Identity() in t.connectors.reservations ==>
              m.connectorIndex == t.connectors.reservations[req.Identity()]
  {
    AcquireMeaning(t.connectors, req.Identity(), Live(t.monitors));
    AddingOneKeepsIdentities(t.monitors, req.sessionId, m);
    AddingOneKeepsMonitorsOk(t, req.sessionId, m, Acquired(t.connectors, req.Identity(), Live(t.monitors)).0);
  }

  // ----- destroy and the watchdog -----

  lemma DestroyKeepsInv(t: Table, s: u64)
    requires TableInv(t)
    ensures TableInv(Destroyed(t, s))
    ensures Destroyed(t, s).monitors == t.monitors - {s}
    ensures Destroyed(t, s).updateSeq == t.updateSeq && Destroyed(t, s).maxMonitors == t.maxMonitors
  {
    if s in t.monitors {
      assert Destroyed(t, s).monitors.Keys == t.monitors.Keys - {s};
      DestroyKeepsMonitorsOk(t, s);
    } else {
      assert t.monitors - {s} == t.monitors;
    }
  }

  lemma DestroyKeepsMonitorsOk(t: Table, s: u64)
    requires MonitorsOk(t) && DistinctIdentities(t.monitors) && s in t.monitors
    ensures MonitorsOk(Destroyed(t, s))
  {
    var t' := Destroyed(t, s);
    forall r | r in t'.monitors ensures MonitorOk(t'.monitors[r], r, t'.connectors, t.updateSeq) {
      assert MonitorOk(t.monitors[r], r, t.connectors, t.updateSeq);
    }
  }

  ghost function Elements(ids: seq<u64>): set<u64> { set i | 0 <= i < |ids| :: ids[i] }

  lemma ElementsOfTail(ids: seq<u64>)
    requires ids != []
    ensures Elements(ids) == {ids[0]} + Elements(ids[1..])
  {
    forall x | x in Elements(ids) ensures x in {ids[0]} + Elements(ids[1..]) {
      var i :| 0 <= i < |ids| && ids[i] == x;
      assert i > 0 ==> ids[1..][i - 1] == x;
    }
  }

  lemma RemoveTwice<K, V>(m: map<K, V>, a: set<K>, b: set<K>)
    ensures m - a - b == m - (a + b)
  {
  }

  lemma {:induction false} DestroyEachRemoves(t: Table, ids: seq<u64>)
    ensures DestroyedEach(t, ids).monitors == t.monitors - Elements(ids)
    ensures DestroyedEach(t, ids).updateSeq == t.updateSeq && DestroyedEach(t, ids).maxMonitors == t.maxMonitors
    decreases |ids|
  {
    if ids == [] {
      assert t.monitors - Elements(ids) == t.monitors;
    } else {
      var t' := Destroyed(t, ids[0]);
      assert t'.monitors == t.monitors - {ids[0]};
      DestroyEachRemoves(t', ids[1..]);
      ElementsOfTail(ids);
      RemoveTwice(t.monitors, {ids[0]}, Elements(ids[1..]));
    }
  }

  lemma {:induction false} DestroyEachKeepsInv(t: Table, ids: seq<u64>)
    requires TableInv(t)
    ensures TableInv(DestroyedEach(t, ids))
    decreases |ids|
  {
    if ids != [] {
      DestroyKeepsInv(t, ids[0]);
      DestroyEachKeepsInv(Destroyed(t, ids[0]), ids[1..]);
    }
  }

  lemma TickKeepsInv(t: Table, nowMs: nat)
    requires TableInv(t)
    ensures TableInv(Ticked(t, nowMs)) && Ticked(t, nowMs).updateSeq == t.updateSeq
    ensures Ticked(t, nowMs).monitors == t.monitors - Dead(t, nowMs) && Ticked(t, nowMs).maxMonitors == t.maxMonitors
  {
    var dead := Ascending(Dead(t, nowMs));
    DestroyEachKeepsInv(t, dead);
    DestroyEachRemoves(t, dead);
    assert Elements(dead) == Dead(t, nowMs) by {
      forall x | x in Dead(t, nowMs) ensures x in Elements(dead) {
        assert x in dead;
      }
    }
  }

  lemma TickRemovesTheDead(t: Table, nowMs: nat)
    ensures Ticked(t, nowMs).monitors == t.monitors - Dead(t, nowMs)
  {
    var dead := Ascending(Dead(t, nowMs));
    DestroyEachRemoves(t, dead);
    assert Elements(dead) == Dead(t, nowMs) by {
      forall x | x in Dead(t, nowMs) ensures x in Elements(dead) { assert x in dead; }
    }
  }

  /** The lease a client gets: what it asks for when that is 3 s to 300 s, else the nearer bound; the
      default is the watchdog's seconds, at least 10 s and at most 300 s. */
  lemma LeaseGranted(requestedMs: u32, watchdogSecs: u32)
    ensures var lease := EffectiveLeaseTimeout(requestedMs, watchdogSecs);
            && (requestedMs == U32_MAX ==> lease == U32_MAX)
            && (requestedMs == 0 && watchdogSecs == 0 ==> lease == U32_MAX)
            && (requestedMs == 0 && 0 < watchdogSecs <= 10 ==> lease == 10_000)
            && (requestedMs == 0 && 10 < watchdogSecs < 300 ==> lease == watchdogSecs * 1000)
            && (requestedMs == 0 && 300 <= watchdogSecs ==> lease == 300_000)
            && (0 < requestedMs < 3_000 ==> lease == 3_000)
            && (3_000 <= requestedMs <= 300_000 ==> lease == requestedMs)
            && (300_000 < requestedMs < U32_MAX ==> lease == 300_000)
  {
  }

  lemma CreatedIsPinged(t: Table, nowMs: nat, req: CreateRequest, caps: Caps, select: u64 -> Result<u64>, preferred: u64)
    returns (m: Monitor)
    requires CreatedTrusted(t, nowMs, req, caps, select, preferred).1.Ok?
    ensures CreatedTrusted(t, nowMs, req, caps, select, preferred).0.monitors == t.monitors[req.sessionId := m]
    ensures m.lastPingMs == nowMs && m.leaseTimeoutMs == EffectiveLeaseTimeout(req.leaseTimeoutMs, t.watchdogSecs)
  {
    m := CreatedTrusted(t, nowMs, req, caps, select, preferred).1.value;
  }

  /** A session lives from a ping exactly as long as its lease. */
  lemma LivesItsLease(t: Table, s: u64, nowMs: nat, laterMs: nat)
    requires s in t.monitors && t.monitors[s].lastPingMs == nowMs <= laterMs
    ensures s in Ticked(t, laterMs).monitors <==>
              t.monitors[s].leaseTimeoutMs == U32_MAX || laterMs <= nowMs + t.monitors[s].leaseTimeoutMs
  {
    TickRemovesTheDead(t, laterMs);
  }

  /** From its creation on a session has exactly its lease to live without a ping. */
  lemma CreatedLivesItsLease(t: Table, nowMs: nat, req: CreateRequest, caps: Caps, select: u64 -> Result<u64>,
                             preferred: u64, laterMs: nat)
    requires CreatedTrusted(t, nowMs, req, caps, select, preferred).1.Ok? && nowMs <= laterMs
    ensures var t' := CreatedTrusted(t, nowMs, req, caps, select, preferred).0;
            var lease := EffectiveLeaseTimeout(req.leaseTimeoutMs, t.watchdogSecs);
            && req.sessionId in t'.monitors && t'.monitors[req.sessionId].leaseTimeoutMs == lease
            && (req.sessionId in Ticked(t', laterMs).monitors <==> lease == U32_MAX || laterMs <= nowMs + lease)
  {
    var m := CreatedIsPinged(t, nowMs, req, caps, select, preferred);
    LivesItsLease(CreatedTrusted(t, nowMs, req, caps, select, preferred).0, req.sessionId, nowMs, laterMs);
  }

  /** And so it has from each ping on; a ping changes nothing else, for it or for anybody. */
  lemma PingedLivesItsLease(t: Table, nowMs: nat, s: u64, laterMs: nat)
    requires s in t.monitors && nowMs <= laterMs
    ensures var t' := Pinged(t, nowMs, s);
            && t' == t.(monitors := t'.monitors) && t'.monitors.Keys == t.monitors.Keys
            && (forall r :: r in t.monitors && r != s ==> t'.monitors[r] == t.monitors[r])
            && t'.monitors[s] == t.monitors[s].(lastPingMs := t'.monitors[s].lastPingMs)
            && (s in Ticked(t', laterMs).monitors <==>
                  t.monitors[s].leaseTimeoutMs == U32_MAX || laterMs <= nowMs + t.monitors[s].leaseTimeoutMs)
  {
    LivesItsLease(Pinged(t, nowMs, s), s, nowMs, laterMs);
  }

  /** The remaining time QUERY_LEASE reports is what the watchdog acts on: a session that a sweep now
      would spare survives a later one exactly until that time has passed. */
  lemma LeaseQueryPredictsReap(t: Table, s: u64, nowMs: nat, laterMs: nat)
    requires TableInv(t) && s in t.monitors
    requires t.monitors[s].lastPingMs <= nowMs <= laterMs && !t.monitors[s].Expired(nowMs)
    ensures s in Ticked(t, laterMs).monitors <==>
              || Remaining(t.monitors[s], nowMs) == U32_MAX
              || laterMs <= nowMs + Remaining(t.monitors[s], nowMs)
  {
    TickKeepsInv(t, laterMs);
  }

  /** A client that comes back with the same identity finds its connector and EDID identity again. */
  lemma ReconnectKeepsIdentity(t: Table, s: u64, nowMs: nat, req: CreateRequest, caps: Caps,
                               select: u64 -> Result<u64>, preferred: u64)
    requires TableInv(t) && s in t.monitors && !t.monitors[s].ephemeralIdentity
    requires !req.Ephemeral() && req.displayId == t.monitors[s].displayId
    requires req.displayId < EPHEMERAL_DISPLAY_ID_BASE
    ensures var r := CreatedTrusted(Destroyed(t, s), nowMs, req, caps, select, preferred).1;
            r.Ok? ==> r.value.connectorIndex == t.monitors[s].connectorIndex
                      && r.value.displayId == t.monitors[s].displayId
  {
    assert MonitorOk(t.monitors[s], s, t.connectors, t.updateSeq);
    DestroyKeepsInv(t, s);
    ReservedComesBack(Destroyed(t, s), nowMs, req, caps, select, preferred, t.monitors[s].connectorIndex);
  }

  /** An identity with a reservation gets its connector. */
  lemma ReservedComesBack(t: Table, nowMs: nat, req: CreateRequest, caps: Caps, select: u64 -> Result<u64>,
                          preferred: u64, connector: u32)
    requires TableInv(t) && !req.Ephemeral()
    requires req.displayId in t.connectors.reservations && t.connectors.reservations[req.displayId] == connector
    ensures var r := CreatedTrusted(t, nowMs, req, caps, select, preferred).1;
            r.Ok? ==> r.value.connectorIndex == connector && r.value.displayId == req.displayId
  {
    CreateFailsCleanly(t, nowMs, req, caps, select, preferred);
    if Admits(t, req, caps, select, preferred) {
      var m := AdmittedIsMade(t, nowMs, req, caps, select, preferred);
    }
  }

  lemma EdidOfCreated(t: Table, nowMs: nat, req: CreateRequest, caps: Caps, select: u64 -> Result<u64>, preferred: u64)
    returns (m: Monitor)
    requires CreatedTrusted(t, nowMs, req, caps, select, preferred).1.Ok?
    ensures m == CreatedTrusted(t, nowMs, req, caps, select, preferred).1.value && m.displayId == req.Identity()
    ensures m.edidSerial == if req.edidSerial != 0 then req.edidSerial else SerialFromDisplayId(m.displayId)
    ensures m.productCode ==
            if IsPermanentDisplayId(m.displayId) then PermanentProductCode(m.displayId % 0x1_0000_0000)
            else TemporaryProductCode(m.connectorIndex)
  {
    m := CreatedTrusted(t, nowMs, req, caps, select, preferred).1.value;
  }

  /** Two creates of one identity that ask for the same serial and land on the same connector show Windows
      the same product code and serial; a serial asked for is kept. */
  lemma SameIdentitySameEdid(t: Table, nowMs: nat, req: CreateRequest, t': Table, laterMs: nat, req': CreateRequest,
                             caps: Caps, select: u64 -> Result<u64>, preferred: u64)
    requires CreatedTrusted(t, nowMs, req, caps, select, preferred).1.Ok?
    requires CreatedTrusted(t', laterMs, req', caps, select, preferred).1.Ok?
    requires req'.Identity() == req.Identity() && req'.edidSerial == req.edidSerial
    ensures var m := CreatedTrusted(t, nowMs, req, caps, select, preferred).1.value;
            var m' := CreatedTrusted(t', laterMs, req', caps, select, preferred).1.value;
            && (req.edidSerial != 0 ==> m.edidSerial == req.edidSerial)
            && m'.edidSerial == m.edidSerial
            && (m'.connectorIndex == m.connectorIndex ==> m'.productCode == m.productCode)
  {
    var m := EdidOfCreated(t, nowMs, req, caps, select, preferred);
    var m' := EdidOfCreated(t', laterMs, req', caps, select, preferred);
  }

  // ----- UPDATE_MODES -----

  lemma ReplacingOneKeepsIdentities(monitors: map<u64, Monitor>, s: u64, m: Monitor)
    requires DistinctIdentities(monitors) && s in monitors && m.displayId == monitors[s].displayId
    ensures DistinctIdentities(monitors[s := m]) && |monitors[s := m]| == |monitors|
  {
    assert monitors[s := m].Keys == monitors.Keys;
  }

  lemma ReplacingOneKeepsMonitorsOk(t: Table, s: u64, m: Monitor, updateSeq: nat)
    requires MonitorsOk(t) && MonitorOk(m, s, t.connectors, updateSeq) && updateSeq >= t.updateSeq
    ensures MonitorsOk(t.(monitors := t.monitors[s := m], updateSeq := updateSeq))
  {
    var t' := t.(monitors := t.monitors[s := m], updateSeq := updateSeq);
    forall r | r in t'.monitors ensures MonitorOk(t'.monitors[r], r, t.connectors, updateSeq) {
      assert r != s ==> MonitorOk(t.monitors[r], r, t.connectors, t.updateSeq);
    }
  }

  /** m differs from the monitor it replaces in lists and lease only. */
  ghost predicate SameMonitor(m: Monitor, m': Monitor) {
    && m'.sessionId == m.sessionId && m'.displayId == m.displayId
    && m'.connectorIndex == m.connectorIndex && m'.ephemeralIdentity == m.ephemeralIdentity
  }

  lemma ReplacingOneKeepsInv(t: Table, s: u64, m: Monitor, updateSeq: nat)
    requires TableInv(t) && s in t.monitors && updateSeq >= t.updateSeq
    requires SameMonitor(t.monitors[s], m) && ListsOk(m, updateSeq)
    ensures TableInv(t.(monitors := t.monitors[s := m], updateSeq := updateSeq))
  {
    assert MonitorOk(t.monitors[s], s, t.connectors, t.updateSeq);
    ReplacingOneKeepsIdentities(t.monitors, s, m);
    ReplacingOneKeepsMonitorsOk(t, s, m, updateSeq);
  }

  lemma PingKeepsInv(t: Table, nowMs: nat, s: u64)
    requires TableInv(t)
    ensures TableInv(Pinged(t, nowMs, s))
  {
    if s in t.monitors {
      assert MonitorOk(t.monitors[s], s, t.connectors, t.updateSeq);
      ReplacingOneKeepsInv(t, s, t.monitors[s].(lastPingMs := nowMs), t.updateSeq);
    }
  }

  lemma AskingKeepsLists(m: Monitor, specs: seq<ModeSpec>, caps: Caps, updateSeq: nat)
    requires ListsOk(m, updateSeq)
    ensures var (m', r) := Asked(m, specs, caps, updateSeq + 1);
            SameMonitor(m, m') && ListsOk(m', if Queues(r) then updateSeq + 1 else updateSeq)
  {
    var requested := Requested(m, specs, caps);
    if requested.Ok? { SelectionMeaning(m.modes, requested.value); }
  }

  lemma UpdateKeepsInv(t: Table, s: u64, specs: seq<ModeSpec>, caps: Caps, token: nat)
    requires TableInv(t)
    requires s in t.monitors ==> t.monitors[s].modes != []
    ensures TableInv(Updated(t, s, specs, caps, token).0)
  {
    if s in t.monitors {
      var m, queued := UpdateReplaces(t, s, specs, caps, token);
      ReplacementKeepsInv(t, s, m, queued);
    }
  }

  lemma UpdateReplaces(t: Table, s: u64, specs: seq<ModeSpec>, caps: Caps, token: nat)
    returns (m: Monitor, queued: bool)
    requires MonitorsOk(t) && s in t.monitors && t.monitors[s].modes != []
    ensures Updated(t, s, specs, caps, token).0 == Replaced(t, s, m, queued)
    ensures SameMonitor(t.monitors[s], m) && ListsOk(m, if queued then t.updateSeq + 1 else t.updateSeq)
  {
    ListsOkOf(t, s, token);
    AskingKeepsLists(WithoutStaleBlock(t.monitors[s], token), specs, caps, t.updateSeq);
    var (m', r) := Asked(WithoutStaleBlock(t.monitors[s], token), specs, caps, t.updateSeq + 1);
    m, queued := m', Queues(r);
  }

  lemma ListsOkOf(t: Table, s: u64, token: nat)
    requires MonitorsOk(t) && s in t.monitors
    ensures ListsOk(t.monitors[s], t.updateSeq)
    ensures ListsOk(WithoutStaleBlock(t.monitors[s], token), t.updateSeq)
    ensures SameMonitor(t.monitors[s], WithoutStaleBlock(t.monitors[s], token))
  {
    assert MonitorOk(t.monitors[s], s, t.connectors, t.updateSeq);
  }

  lemma ReplacementKeepsInv(t: Table, s: u64, m: Monitor, queued: bool)
    requires TableInv(t) && s in t.monitors && SameMonitor(t.monitors[s], m)
    requires ListsOk(m, if queued then t.updateSeq + 1 else t.updateSeq)
    ensures TableInv(Replaced(t, s, m, queued))
  {
    ReplacingOneKeepsInv(t, s, m, if queued then t.updateSeq + 1 else t.updateSeq);
  }

  /** A request that queues nothing, rejected ones included, changes the table exactly by dropping a refusal
      whose token has moved. */
  lemma UnqueuedRequestChangesNothing(t: Table, s: u64, specs: seq<ModeSpec>, caps: Caps, token: nat)
    requires s in t.monitors && t.monitors[s].modes != []
    ensures var (t', r) := Updated(t, s, specs, caps, token);
            r.Err? || r.value.queued.None? ==>
              && t' == t.(monitors := t.monitors[s := WithoutStaleBlock(t.monitors[s], token)])
              && (t' == t <==> !(t.monitors[s].blocked.Some? && t.monitors[s].blocked.value.token != token))
  {
    assert t.monitors[s := t.monitors[s]] == t.monitors;
  }

  /** The list a request comes down to, if it is well formed. */
  function Resolves(m: Monitor, specs: seq<ModeSpec>, caps: Caps): Option<seq<Mode>>
    requires m.modes != []
  {
    match Requested(m, specs, caps)
    case Err(_) => None
    case Ok(requested) => Some(Selection(m.modes, requested).targets)
  }

  /** The four answers a well-formed request can get, each exactly when it gets it. */
  lemma AskOutcome(m: Monitor, specs: seq<ModeSpec>, caps: Caps, updateSeq: nat)
    requires ListsOk(m, updateSeq)
    ensures var (m', r) := Asked(m, specs, caps, updateSeq + 1);
            var want := Resolves(m, specs, caps);
            && (r.Err? <==> want.None?)
            && (r.Ok? ==>
                  var u := r.value;
                  var remembered := m.blocked.Some? && want.value == m.blocked.value.targets;
                  && (u.refused <==> want.value == [])
                  && (u.blocked.Some? <==> remembered)
                  && (u.queued.Some? <==> want.value != [] && want.value != m.TargetBase() && !remembered)
                  && (u.queued.Some? ==>
                        && u.queued == Some(updateSeq + 1) && u.targets == want.value
                        && m'.pendingTargets == Some(PendingTargets(updateSeq + 1, want.value))
                        && m'.blocked.None?)
                  && (u.queued.None? ==> m' == m)
                  && (u.pending <==> m'.pendingTargets.Some?)
                  && (!u.pending ==> u.targets == m.targetModes)
                  && (!u.pending && !u.refused && !remembered ==> want.value == m.targetModes)
                  && m'.targetModes == m.targetModes && m'.modes == m.modes && m'.settledSeq == m.settledSeq)
  {
  }

  lemma UpdateOutcome(t: Table, s: u64, specs: seq<ModeSpec>, caps: Caps, token: nat)
    requires MonitorsOk(t) && s in t.monitors && t.monitors[s].modes != []
    ensures var m := WithoutStaleBlock(t.monitors[s], token);
            var (t', r) := Updated(t, s, specs, caps, token);
            && ListsOk(m, t.updateSeq)
            && (t'.monitors[s], r) == Asked(m, specs, caps, t.updateSeq + 1)
            && t' == Replaced(t, s, t'.monitors[s], Queues(r))
  {
    ListsOkOf(t, s, token);
  }

  // ----- settling -----

  lemma SettleKeepsInv(t: Table, s: u64, seqNo: nat, result: ModeUpdateResult, published: seq<Mode>)
    requires TableInv(t)
    requires s in t.monitors && result.Commits() && published != [] && Listens(t, s, seqNo) ==>
               Within(published, t.monitors[s].modes)
    requires s in t.monitors && t.monitors[s].pendingTargets.Some? && Listens(t, s, seqNo) ==>
               seqNo <= t.monitors[s].pendingTargets.value.seqNo
    ensures TableInv(SettledWith(t, s, seqNo, result, published).0)
  {
    if Listens(t, s, seqNo) {
      assert MonitorOk(t.monitors[s], s, t.connectors, t.updateSeq);
      ReplacingOneKeepsInv(t, s, Decided(t.monitors[s], seqNo, result, published).0, t.updateSeq);
    }
  }

  /** An honoured settle moves the high-water mark up to its id; nothing at or below the mark, or
      never issued, touches the table; a committing settle makes its list the durable one and any
      other leaves the durable list alone. */
  lemma SettleOutcomeMeaning(t: Table, s: u64, seqNo: nat, result: ModeUpdateResult, published: seq<Mode>)
    ensures var (t', outcome) := SettledWith(t, s, seqNo, result, published);
            && t'.updateSeq == t.updateSeq && t'.monitors.Keys == t.monitors.Keys
            && (!Listens(t, s, seqNo) ==> t' == t && outcome == Stale)
            && (Listens(t, s, seqNo) ==>
                  && t'.monitors[s].settledSeq == seqNo
                  && t'.monitors[s].modes == t.monitors[s].modes
                  && t'.monitors[s].targetModes ==
                     (if result.Commits() && published != [] then published else t.monitors[s].targetModes)
                  && (outcome.Settled? <==> t.monitors[s].Outstanding(seqNo))
                  && (outcome.SupersededCommitted? <==>
                        !t.monitors[s].Outstanding(seqNo) && result.Commits() && published != [])
                  && t'.monitors[s].pendingTargets ==
                     (if t.monitors[s].Outstanding(seqNo) then None else t.monitors[s].pendingTargets)
                  && t'.monitors[s].lastError ==
                     (if !outcome.Settled? || result.Applied? then t.monitors[s].lastError
                      else if result.Blocked? then -14 else -13)
                  && (result.Blocked? && outcome.Settled? ==>
                        t'.monitors[s].blocked ==
                        Some(BlockedPush(t.monitors[s].pendingTargets.value.targets, result.supersetIdx, result.token)))
                  && (!result.Blocked? && !(result.Commits() && published != []) && !(outcome.Settled? && result.Applied?) ==>
                        t'.monitors[s].blocked == t.monitors[s].blocked)
                  && (result.Commits() && published != [] ==> t'.monitors[s].blocked.None?))
            && (forall r :: r in t.monitors && r != s ==> t'.monitors[r] == t.monitors[r])
  {
  }

  // ----- refusals converge -----

  /** After a push that did not apply, asking again for the same list pushes again, under a larger
      id, unless that list is the one in force. */
  lemma FailedPushIsRetried(t: Table, s: u64, published: seq<Mode>, specs: seq<ModeSpec>, caps: Caps, token: nat)
    requires TableInv(t) && s in t.monitors && t.monitors[s].modes != [] && t.monitors[s].pendingTargets.Some?
    requires Resolves(t.monitors[s], specs, caps) == Some(t.monitors[s].pendingTargets.value.targets)
    ensures var p := t.monitors[s].pendingTargets.value;
            var t1 := SettledWith(t, s, p.seqNo, NotApplied, published).0;
            && t1.monitors[s].lastError == UPDATE_FAILED && t1.monitors[s].pendingTargets.None?
            && s in t1.monitors && t1.monitors[s].modes == t.monitors[s].modes
            && var r := Updated(t1, s, specs, caps, token).1;
               && r.Ok?
               && (r.value.queued.Some? <==> p.targets != t.monitors[s].targetModes)
               && (r.value.queued.Some? ==> r.value.queued.value > p.seqNo && r.value.targets == p.targets)
  {
    assert MonitorOk(t.monitors[s], s, t.connectors, t.updateSeq);
  }

  /** After a committed-mode refusal the same request is answered with the mode in the way and pushes
      nothing, however often it comes, while the commit token stands; once it moves, the request
      pushes again. */
  lemma RefusedPushIsAnswered(t: Table, s: u64, idx: nat, token: nat, published: seq<Mode>,
                              specs: seq<ModeSpec>, caps: Caps, now: nat)
    requires TableInv(t) && s in t.monitors && t.monitors[s].modes != [] && t.monitors[s].pendingTargets.Some?
    requires Resolves(t.monitors[s], specs, caps) == Some(t.monitors[s].pendingTargets.value.targets)
    ensures var p := t.monitors[s].pendingTargets.value;
            var t1 := SettledWith(t, s, p.seqNo, Blocked(idx, token), published).0;
            && s in t1.monitors && t1.monitors[s].modes == t.monitors[s].modes
            && var (t2, r) := Updated(t1, s, specs, caps, now);
               && r.Ok?
               && (now == token ==> t2 == t1 && r.value.blocked == Some(idx) && r.value.queued.None?)
               && (now != token ==>
                     && r.value.blocked.None?
                     && (r.value.queued.Some? <==> p.targets != t.monitors[s].targetModes)
                     && (r.value.queued.Some? ==> r.value.queued.value > p.seqNo))
  {
    assert MonitorOk(t.monitors[s], s, t.connectors, t.updateSeq);
    var t1 := SettledWith(t, s, t.monitors[s].pendingTargets.value.seqNo, Blocked(idx, token), published).0;
    assert t1.monitors[s := t1.monitors[s]] == t1.monitors;
  }

  lemma OneSpec(mode: Mode, caps: Caps)
    requires InEnvelope(mode.Spec()) && DepthSupported(mode.bitDepth, mode.hdr, caps)
    ensures ValidList([mode.Spec()], 1, mode.bitDepth.AsRaw(), if mode.hdr then 1 else 0, caps) == Ok([mode])
  {
    var depth, hdr := mode.bitDepth.AsRaw(), if mode.hdr then 1 else 0;
    assert BitDepthFromRaw(depth) == Some(mode.bitDepth);
    assert Validate(mode.Spec(), depth, hdr, caps) == Ok(mode);
    assert ValidPrefix([mode.Spec()], 0, depth, hdr, caps) == Ok([]);
    assert [] + [mode] == [mode];
  }

  lemma OneSelected(superset: seq<Mode>, mode: Mode)
    requires mode in superset
    ensures Selection(superset, [mode]).targets == [mode]
  {
    assert SelectFirst(superset, [mode], 0).targets == [];
    assert [] + [mode] == [mode];
  }

  /** A request for one of the monitor's modes that is not the base list queues exactly that mode. */
  lemma OneModeQueues(m: Monitor, mode: Mode, caps: Caps, next: nat)
    requires m.modes != [] && mode in m.modes && m.blocked.None? && m.TargetBase() != [mode]
    requires InEnvelope(mode.Spec()) && DepthSupported(mode.bitDepth, mode.hdr, caps)
    requires mode.bitDepth == m.modes[0].bitDepth && mode.hdr == m.modes[0].hdr
    ensures var (m', r) := Asked(m, [mode.Spec()], caps, next);
            Queues(r) && m' == m.(pendingTargets := Some(PendingTargets(next, [mode])))
  {
    OneSpec(mode, caps);
    OneSelected(m.modes, mode);
  }

  lemma GateRefuses(slow: Mode, fast: Mode)
    requires !Is(CommittedMode(fast.width, fast.height, fast.refreshMillihz), slow)
    ensures var c := CommittedMode(fast.width, fast.height, fast.refreshMillihz);
            Gate([slow, fast], [slow], Some(c)) == EvictsCommitted(c, 1)
  {
    assert [slow, fast][1..] == [fast];
    assert Is(CommittedMode(fast.width, fast.height, fast.refreshMillihz), [fast][0]);
    assert forall m :: m in [slow] ==> m == slow;
  }
}
