/** The members of the pool over whole runs of the update protocol. */
module PoolTheorems {
  import opened Prelude
  import opened Modes
  import opened Identity
  import opened Session
  import opened SessionProofs
  import opened Permanent
  import opened Persist
  import opened Dispatch
  import opened DispatchProofs
  import opened PoolProofs
  import opened UpdateProtocol
  import opened UpdateProtocolProofs

  predicate SameMake(m: Monitor, m': Monitor) {
    && m'.displayId == m.displayId && m'.modes == m.modes && m'.looks == m.looks
    && m'.leaseTimeoutMs == m.leaseTimeoutMs
  }

  predicate MadeBefore(t: Table, t': Table, s: u64) {
    s in t.monitors && s in t'.monitors && SameMake(t.monitors[s], t'.monitors[s])
  }

  /** Whatever is live was live before and made the same, or is no member of the pool. */
  ghost predicate KeepsMakes(t: Table, t': Table) {
    forall s :: s in t'.monitors ==> MadeBefore(t, t', s) || !IsPermanentDisplayId(t'.monitors[s].displayId)
  }

  lemma MakesKeepMatch(t: Table, t': Table, pool: PoolConfig)
    requires KeepsMakes(t, t') && MembersMatch(t, pool)
    ensures MembersMatch(t', pool)
  {
    forall i: u32 | i < pool.count && Member(t', i) ensures Matches(t'.monitors[PermanentSessionId(i)], pool, i) {
      if MadeBefore(t, t', PermanentSessionId(i)) {
        assert Member(t, i) && Matches(t.monitors[PermanentSessionId(i)], pool, i);
      }
    }
  }

  /** A client cannot create a monitor with a member's identity. */
  lemma CreatedIsNoMember(t: Table, nowMs: nat, req: CreateRequest, caps: Caps, select: u64 -> Result<u64>, preferred: u64)
    requires TableInv(t)
    ensures KeepsMakes(t, Created(t, nowMs, req, caps, select, preferred).0)
  {
    CreateFailsCleanly(t, nowMs, req, caps, select, preferred);
    if Admits(t, req, caps, select, preferred) {
      var m := AdmittedIsMade(t, nowMs, req, caps, select, preferred);
    }
  }

  lemma FewerKeepMakes(t: Table, t': Table)
    requires forall s :: s in t'.monitors ==> s in t.monitors && t'.monitors[s] == t.monitors[s]
    ensures KeepsMakes(t, t')
  {
  }

  lemma UpdatedKeepsMakes(t: Table, s: u64, specs: seq<ModeSpec>, caps: Caps, token: nat)
    requires s in t.monitors ==> t.monitors[s].modes != []
    ensures KeepsMakes(t, Updated(t, s, specs, caps, token).0)
  {
  }

  lemma SettledKeepsMakes(t: Table, s: u64, seqNo: nat, result: ModePush.ModeUpdateResult, published: seq<Mode>)
    ensures KeepsMakes(t, SettledWith(t, s, seqNo, result, published).0)
  {
  }

  lemma RequestKeepsMatch(dev: Device, a: Action)
    requires DeviceInv(dev) && IsRequest(a) && (a.SetPool? ==> a.desired.Valid())
    requires a.Update? && a.s in dev.table.monitors ==> dev.table.monitors[a.s].modes != []
    requires MembersMatch(dev.table, dev.pool)
    ensures var dev' := Answer(dev, a).0; MembersMatch(dev'.table, dev'.pool)
  {
    var dev' := Answer(dev, a).0;
    match a {
      case Create(_, nowMs, req, select) =>
        CreatedIsNoMember(dev.table, nowMs, req, dev.cfg.caps, select, dev.preferredAdapter);
        MakesKeepMatch(dev.table, dev'.table, dev.pool);
      case Destroy(_, s) =>
        FewerKeepMakes(dev.table, dev'.table);
        MakesKeepMatch(dev.table, dev'.table, dev.pool);
      case Tick(nowMs) =>
        TickKeepsInv(dev.table, nowMs);
        FewerKeepMakes(dev.table, dev'.table);
        MakesKeepMatch(dev.table, dev'.table, dev.pool);
      case Update(_, s, specs, count, token) =>
        if count <= |specs| { UpdatedKeepsMakes(dev.table, s, specs[..count], dev.cfg.caps, token); }
        MakesKeepMatch(dev.table, dev'.table, dev.pool);
      case SetPool(_, nowMs, desired, select) =>
        ApplyPoolKeepsMatch(dev, nowMs, desired, select);
    }
  }

  lemma StartKeepsMatch(dev: Device, nowMs: nat, select: u64 -> Result<u64>)
    requires DeviceInv(dev) && MembersMatch(dev.table, dev.pool)
    ensures var dev' := AfterStartup(dev, nowMs, select).0; MembersMatch(dev'.table, dev'.pool)
  {
    if dev.pool.count > 0 && ValidPool(dev.pool, dev.cfg.caps, dev.cfg.TableCap()) {
      ApplyPoolKeepsMatch(dev.(pool := dev.pool.(count := 0)), nowMs, dev.pool, select);
    }
  }

  /** The steps that are no request and no start. */
  lemma RestKeepsMatch(st: State, a: Action) returns (st': State)
    requires Enabled(st, a) && !IsRequest(a) && !a.Startup? && MembersMatch(st.dev.table, st.dev.pool)
    ensures st' == Next(st, a) && MembersMatch(st'.dev.table, st'.dev.pool)
  {
    var dev := st.dev;
    st' := Next(st, a);
    if a.Settle? {
      var w := st.worker;
      SettledKeepsMakes(dev.table, w.s, w.seqNo, w.result, w.targets);
      MakesKeepMatch(dev.table, SettledNow(st).dev.table, dev.pool);
    } else if a.Ping? {
      assert KeepsMakes(dev.table, Pinged(dev.table, a.nowMs, a.s));
      MakesKeepMatch(dev.table, Pinged(dev.table, a.nowMs, a.s), dev.pool);
    }
  }

  lemma StepKeepsMatch(st: State, a: Action) returns (st': State)
    requires DeviceInv(st.dev) && Enabled(st, a) && MembersMatch(st.dev.table, st.dev.pool)
    ensures st' == Next(st, a) && MembersMatch(st'.dev.table, st'.dev.pool)
  {
    if IsRequest(a) {
      RequestKeepsMatch(st.dev, a);
      st' := Enqueued(st, Answer(st.dev, a).0, Answer(st.dev, a).1);
    } else if a.Startup? {
      StartKeepsMatch(st.dev, a.nowMs, a.select);
      st' := Started(st, a.nowMs, a.select);
    } else {
      st' := RestKeepsMatch(st, a);
    }
  }

  /** In every reachable state the live members up to the recorded count have the recorded settings. */
  lemma MembersMatchThePool(states: seq<State>, actions: seq<Action>, i: nat)
    requires IsRun(states, actions) && i < |states|
    ensures MembersMatch(states[i].dev.table, states[i].dev.pool)
  {
    for k := 0 to i
      invariant MembersMatch(states[k].dev.table, states[k].dev.pool)
    {
      RunsKeepInv(states, actions, k);
      assert Follows(states, actions, k);
      var st' := StepKeepsMatch(states[k], actions[k]);
    }
  }

  /** A pool member needs no pings: in every reachable state no sweep, however late, takes one. */
  lemma MembersOutliveEverySweep(states: seq<State>, actions: seq<Action>, i: nat, k: u32, laterMs: nat)
    requires IsRun(states, actions) && i < |states|
    requires k < states[i].dev.pool.count && HasMember(states[i].dev.table, k)
    ensures HasMember(Ticked(states[i].dev.table, laterMs), k)
  {
    MembersMatchThePool(states, actions, i);
    var t := states[i].dev.table;
    assert Matches(t.monitors[PermanentSessionId(k)], states[i].dev.pool, k);
    TickRemovesTheDead(t, laterMs);
  }
}
