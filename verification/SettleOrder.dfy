/**
 Settles in any order: what the table keeps when the outcomes of updates come back late, out of order,
 repeatedly, or after their session was destroyed and created again. The only thing asked of a settle
 is that it carries the session, id and list of an update the table issued.
 */
module SettleOrder {
  import opened Prelude
  import opened Modes
  import opened ModePush
  import opened Identity
  import opened Ordered
  import opened Session
  import opened SessionProofs

  datatype Issue = Issue(s: u64, seqNo: nat, targets: seq<Mode>)

  datatype Honoured = Honoured(seqNo: nat, applied: bool, targets: seq<Mode>)

  /** One incarnation of a session: the update counter at its creation and the settles it honoured. */
  datatype Life = Life(birth: nat, honoured: seq<Honoured>)

  datatype State = State(t: Table, issued: set<Issue>, lives: map<u64, Life>)

  datatype Action =
    | Create(nowMs: nat, req: CreateRequest, caps: Caps, select: u64 -> Result<u64>, preferred: u64)
    | Destroy(s: u64)
    | Tick(nowMs: nat)
    | Ping(nowMs: nat, s: u64)
    | Update(s: u64, specs: seq<ModeSpec>, caps: Caps, token: nat)
    | Settle(issue: Issue, result: ModeUpdateResult)

  predicate Enabled(st: State, a: Action) {
    match a
    case Create(_, req, _, _, _) => !req.Ephemeral() ==> req.displayId < EPHEMERAL_DISPLAY_ID_BASE
    case Update(s, _, _, _) => s in st.t.monitors ==> st.t.monitors[s].modes != []
    case Settle(issue, _) => issue in st.issued
    case _ => true
  }

  ghost function Next(st: State, a: Action): State
    requires Enabled(st, a)
  {
    match a
    case Create(nowMs, req, caps, select, preferred) =>
      var (t', r) := CreatedTrusted(st.t, nowMs, req, caps, select, preferred);
      st.(t := t', lives := if r.Ok? then st.lives[req.sessionId := Life(st.t.updateSeq, [])] else st.lives)
    case Destroy(s) => st.(t := Destroyed(st.t, s), lives := st.lives - {s})
    case Tick(nowMs) => st.(t := Ticked(st.t, nowMs), lives := st.lives - Dead(st.t, nowMs))
    case Ping(nowMs, s) => st.(t := Pinged(st.t, nowMs, s))
    case Update(s, specs, caps, token) =>
      var (t', r) := Updated(st.t, s, specs, caps, token);
      st.(t := t', issued := st.issued + if Queues(r) then {Issue(s, r.value.queued.value, r.value.targets)} else {})
    case Settle(issue, result) => SettledState(st, issue, result)
  }

  function SettledState(st: State, issue: Issue, result: ModeUpdateResult): State {
    var t' := SettledWith(st.t, issue.s, issue.seqNo, result, issue.targets).0;
    if Listens(st.t, issue.s, issue.seqNo) && issue.s in st.lives then
      var life := st.lives[issue.s];
      st.(t := t', lives := st.lives[issue.s :=
            life.(honoured := life.honoured + [Honoured(issue.seqNo, result.Applied?, issue.targets)])])
    else st.(t := t')
  }

  ghost predicate Initial(st: State) {
    TableInv(st.t) && st.t.monitors == map[] && st.issued == {} && st.lives == map[]
  }

  ghost predicate Follows(states: seq<State>, actions: seq<Action>, i: nat)
    requires i < |actions| && |states| == |actions| + 1
  {
    Enabled(states[i], actions[i]) && states[i + 1] == Next(states[i], actions[i])
  }

  ghost predicate IsRun(states: seq<State>, actions: seq<Action>) {
    && |states| == |actions| + 1
    && Initial(states[0])
    && forall i :: 0 <= i < |actions| ==> Follows(states, actions, i)
  }

  // ----- the invariant -----

  /** The list of the last applied settle, or the create-time list. */
  function InForce(honoured: seq<Honoured>, created: seq<Mode>): seq<Mode>
    decreases |honoured|
  {
    if honoured == [] then created
    else
      var last := honoured[|honoured| - 1];
      if last.applied then last.targets else InForce(honoured[..|honoured| - 1], created)
  }

  function LastId(life: Life): nat {
    if life.honoured == [] then life.birth else life.honoured[|life.honoured| - 1].seqNo
  }

  /** Honoured ids strictly increase, from above the birth on. */
  ghost predicate Increasing(life: Life) {
    && (forall i :: 0 <= i < |life.honoured| ==> life.birth < life.honoured[i].seqNo)
    && (forall i, j :: 0 <= i < j < |life.honoured| ==> life.honoured[i].seqNo < life.honoured[j].seqNo)
  }

  ghost predicate LifeOk(m: Monitor, life: Life) {
    && Increasing(life)
    && m.settledSeq == LastId(life)
    && m.targetModes == InForce(life.honoured, m.modes)
  }

  /** An issue of the living incarnation is publishable, no newer than what is pending, and what is pending
      is the newest issue. */
  ghost predicate IssueOk(m: Monitor, life: Life, issue: Issue) {
    life.birth < issue.seqNo ==>
      && Publishable(issue.targets, m.modes)
      && (m.pendingTargets.Some? ==>
            && issue.seqNo <= m.pendingTargets.value.seqNo
            && (m.Outstanding(issue.seqNo) ==> issue.targets == m.pendingTargets.value.targets))
  }

  ghost predicate LivesInv(st: State) {
    && st.lives.Keys == st.t.monitors.Keys
    && (forall s :: s in st.lives ==> LifeOk(st.t.monitors[s], st.lives[s]))
    && (forall issue :: issue in st.issued ==> issue.seqNo <= st.t.updateSeq)
    && (forall issue :: issue in st.issued && issue.s in st.lives ==>
          IssueOk(st.t.monitors[issue.s], st.lives[issue.s], issue))
  }

  ghost predicate Inv(st: State) { TableInv(st.t) && LivesInv(st) }

  lemma CreateKeepsLives(st: State, a: Action)
    requires Inv(st) && Enabled(st, a) && a.Create?
    ensures Inv(Next(st, a))
  {
    CreateKeepsInv(st.t, a.nowMs, a.req, a.caps, a.select, a.preferred);
    CreateFailsCleanly(st.t, a.nowMs, a.req, a.caps, a.select, a.preferred);
    var (t', r) := CreatedTrusted(st.t, a.nowMs, a.req, a.caps, a.select, a.preferred);
    if r.Ok? { NewLife(st, t', r.value); }
  }

  lemma NewLife(st: State, t': Table, m: Monitor)
    requires LivesInv(st) && m.sessionId !in st.t.monitors && t'.monitors == st.t.monitors[m.sessionId := m]
    requires t'.updateSeq == st.t.updateSeq == m.settledSeq
    requires m.targetModes == m.modes && m.pendingTargets.None?
    ensures LivesInv(st.(t := t', lives := st.lives[m.sessionId := Life(st.t.updateSeq, [])]))
  {
  }

  lemma RemovalKeepsLives(st: State, t': Table, gone: set<u64>)
    requires LivesInv(st) && t'.monitors == st.t.monitors - gone && t'.updateSeq == st.t.updateSeq
    ensures LivesInv(st.(t := t', lives := st.lives - gone))
  {
    assert t'.monitors.Keys == (st.lives - gone).Keys;
  }

  lemma PingKeepsLives(st: State, nowMs: nat, s: u64)
    requires LivesInv(st)
    ensures LivesInv(st.(t := Pinged(st.t, nowMs, s)))
  {
    assert Pinged(st.t, nowMs, s).monitors.Keys == st.t.monitors.Keys;
  }

  lemma UpdateIssues(t: Table, a: Action)
    requires MonitorsOk(t) && a.Update? && a.s in t.monitors && t.monitors[a.s].modes != []
    ensures var (t', r) := Updated(t, a.s, a.specs, a.caps, a.token);
            && t' == Replaced(t, a.s, t'.monitors[a.s], Queues(r))
            && t'.monitors[a.s].settledSeq == t.monitors[a.s].settledSeq
            && t'.monitors[a.s].modes == t.monitors[a.s].modes
            && t'.monitors[a.s].targetModes == t.monitors[a.s].targetModes
            && (!Queues(r) ==> t'.monitors[a.s].pendingTargets == t.monitors[a.s].pendingTargets)
            && (Queues(r) ==>
                  && r.value.queued == Some(t.updateSeq + 1) && Publishable(r.value.targets, t.monitors[a.s].modes)
                  && t'.monitors[a.s].pendingTargets == Some(PendingTargets(t.updateSeq + 1, r.value.targets)))
  {
    var m := WithoutStaleBlock(t.monitors[a.s], a.token);
    UpdateOutcome(t, a.s, a.specs, a.caps, a.token);
    AskOutcome(m, a.specs, a.caps, t.updateSeq);
    AskingKeepsLists(m, a.specs, a.caps, t.updateSeq);
  }

  lemma UpdateKeepsLives(st: State, a: Action)
    requires Inv(st) && Enabled(st, a) && a.Update? && a.s in st.t.monitors
    ensures LivesInv(Next(st, a))
  {
    UpdateIssues(st.t, a);
    var (t', r) := Updated(st.t, a.s, a.specs, a.caps, a.token);
    AskedKeepsLives(st, a.s, t', t'.monitors[a.s], r);
  }

  lemma AskedKeepsLives(st: State, s: u64, t': Table, m': Monitor, r: Result<ModeUpdate>)
    requires LivesInv(st) && s in st.t.monitors && t' == Replaced(st.t, s, m', Queues(r))
    requires m'.settledSeq == st.t.monitors[s].settledSeq && m'.modes == st.t.monitors[s].modes
    requires m'.targetModes == st.t.monitors[s].targetModes
    requires !Queues(r) ==> m'.pendingTargets == st.t.monitors[s].pendingTargets
    requires Queues(r) ==>
               && r.value.queued == Some(st.t.updateSeq + 1) && Publishable(r.value.targets, m'.modes)
               && m'.pendingTargets == Some(PendingTargets(st.t.updateSeq + 1, r.value.targets))
    ensures LivesInv(st.(t := t', issued := st.issued +
                           if Queues(r) then {Issue(s, r.value.queued.value, r.value.targets)} else {}))
  {
    assert t'.monitors.Keys == st.t.monitors.Keys;
  }

  lemma SettleKeepsLives(st: State, issue: Issue, result: ModeUpdateResult)
    requires Inv(st) && issue in st.issued
    ensures Inv(SettledState(st, issue, result))
  {
    SettleOutcomeMeaning(st.t, issue.s, issue.seqNo, result, issue.targets);
    if Listens(st.t, issue.s, issue.seqNo) {
      HonouredIsAlive(st, issue);
      SettleKeepsInv(st.t, issue.s, issue.seqNo, result, issue.targets);
      HonouredKeepsLives(st, issue, result);
    }
  }

  lemma HonouredIsAlive(st: State, issue: Issue)
    requires LivesInv(st) && issue in st.issued && Listens(st.t, issue.s, issue.seqNo)
    ensures issue.s in st.lives && st.lives[issue.s].birth < issue.seqNo
    ensures IssueOk(st.t.monitors[issue.s], st.lives[issue.s], issue)
  {
    assert LifeOk(st.t.monitors[issue.s], st.lives[issue.s]);
  }

  lemma HonouredKeepsLives(st: State, issue: Issue, result: ModeUpdateResult)
    requires LivesInv(st) && issue in st.issued && Listens(st.t, issue.s, issue.seqNo)
    requires Publishable(issue.targets, st.t.monitors[issue.s].modes)
    ensures LivesInv(SettledState(st, issue, result))
  {
    var m, st' := st.t.monitors[issue.s], SettledState(st, issue, result);
    var m' := st'.t.monitors[issue.s];
    SettleOutcomeMeaning(st.t, issue.s, issue.seqNo, result, issue.targets);
    LifeGoesOn(m, m', st.lives[issue.s], Honoured(issue.seqNo, result.Applied?, issue.targets));
    forall other | other in st.issued && other.s in st'.lives
      ensures IssueOk(st'.t.monitors[other.s], st'.lives[other.s], other)
    {
      assert IssueOk(st.t.monitors[other.s], st.lives[other.s], other);
    }
  }

  lemma OneMoreInForce(honoured: seq<Honoured>, h: Honoured, created: seq<Mode>)
    ensures InForce(honoured + [h], created) == if h.applied then h.targets else InForce(honoured, created)
  {
    assert (honoured + [h])[..|honoured|] == honoured;
  }

  lemma LifeGoesOn(m: Monitor, m': Monitor, life: Life, h: Honoured)
    requires LifeOk(m, life) && m.settledSeq < h.seqNo == m'.settledSeq && m'.modes == m.modes
    requires m'.targetModes == if h.applied then h.targets else m.targetModes
    ensures LifeOk(m', life.(honoured := life.honoured + [h]))
  {
    OneMoreInForce(life.honoured, h, m.modes);
    forall i | 0 <= i < |life.honoured| ensures life.honoured[i].seqNo < h.seqNo {
      assert life.honoured[i].seqNo <= LastId(life);
    }
  }

  lemma StepKeepsInv(st: State, a: Action)
    requires Inv(st) && Enabled(st, a)
    ensures Inv(Next(st, a))
  {
    match a {
      case Create(_, _, _, _, _) => CreateKeepsLives(st, a);
      case Destroy(s) =>
        DestroyKeepsInv(st.t, s);
        RemovalKeepsLives(st, Destroyed(st.t, s), {s});
      case Tick(nowMs) =>
        TickKeepsInv(st.t, nowMs);
        RemovalKeepsLives(st, Ticked(st.t, nowMs), Dead(st.t, nowMs));
      case Ping(nowMs, s) =>
        PingKeepsInv(st.t, nowMs, s);
        PingKeepsLives(st, nowMs, s);
      case Update(s, specs, caps, token) =>
        UpdateKeepsInv(st.t, s, specs, caps, token);
        if s in st.t.monitors { UpdateKeepsLives(st, a); }
      case Settle(issue, result) => SettleKeepsLives(st, issue, result);
    }
  }

  lemma RunsKeepInv(states: seq<State>, actions: seq<Action>, i: nat)
    requires IsRun(states, actions) && i < |states|
    ensures Inv(states[i])
  {
    for k := 0 to i
      invariant Inv(states[k])
    {
      assert Follows(states, actions, k);
      StepKeepsInv(states[k], actions[k]);
    }
  }

  // ----- the theorems -----

  /** k is the applied settle with the largest id. */
  ghost predicate HighestApplied(honoured: seq<Honoured>, k: nat) {
    && k < |honoured| && honoured[k].applied
    && forall i :: 0 <= i < |honoured| && honoured[i].applied ==> honoured[i].seqNo <= honoured[k].seqNo
  }

  lemma {:induction false} LastApplied(honoured: seq<Honoured>, created: seq<Mode>) returns (last: Option<nat>)
    ensures last.None? ==>
              InForce(honoured, created) == created && forall i :: 0 <= i < |honoured| ==> !honoured[i].applied
    ensures last.Some? ==>
              && last.value < |honoured| && honoured[last.value].applied
              && InForce(honoured, created) == honoured[last.value].targets
              && forall i :: last.value < i < |honoured| ==> !honoured[i].applied
    decreases |honoured|
  {
    if honoured == [] { return None; }
    var n := |honoured| - 1;
    if honoured[n].applied { return Some(n); }
    last := LastApplied(honoured[..n], created);
  }

  /**
   Whatever the order of the settles: the ids a session honours strictly increase, its durable list is
   that of the highest honoured id that applied, or the create-time list if none did, and it is a
   non-empty part of the create-time list.
   */
  lemma DurableIsTheHighestApplied(states: seq<State>, actions: seq<Action>, i: nat, s: u64)
    requires IsRun(states, actions) && i < |states| && s in states[i].t.monitors
    ensures s in states[i].lives
    ensures var m, life := states[i].t.monitors[s], states[i].lives[s];
            && Increasing(life) && Publishable(m.targetModes, m.modes)
            && (|| (m.targetModes == m.modes && forall k :: 0 <= k < |life.honoured| ==> !life.honoured[k].applied)
                || exists k: nat :: HighestApplied(life.honoured, k) && m.targetModes == life.honoured[k].targets)
  {
    RunsKeepInv(states, actions, i);
    var t, life := states[i].t, states[i].lives[s];
    assert MonitorOk(t.monitors[s], s, t.connectors, t.updateSeq);
    assert LifeOk(t.monitors[s], life);
    var last := LastApplied(life.honoured, t.monitors[s].modes);
    assert last.Some? ==> HighestApplied(life.honoured, last.value);
  }

  /** The list asked for last is in force: the highest applied settle carried it, or none applied and it is
      the create-time list. */
  ghost predicate LastCarried(life: Life, created: seq<Mode>, targets: seq<Mode>) {
    || (exists k: nat :: HighestApplied(life.honoured, k) && life.honoured[k].targets == targets)
    || ((forall k :: 0 <= k < |life.honoured| ==> !life.honoured[k].applied) && targets == created)
  }

  lemma LastCarriedIsInForce(life: Life, created: seq<Mode>, targets: seq<Mode>)
    requires Increasing(life)
    ensures LastCarried(life, created, targets) <==> targets == InForce(life.honoured, created)
  {
    var last := LastApplied(life.honoured, created);
    if last.Some? {
      assert HighestApplied(life.honoured, last.value);
      forall k: nat | HighestApplied(life.honoured, k) ensures k == last.value {
        assert life.honoured[k].seqNo == life.honoured[last.value].seqNo;
      }
    }
  }

  /**
   Whatever the order of the settles: a refusal of the outstanding push remembers that push's list, and
   that list is the one in force exactly when the highest applied settle carried it, or none applied and
   it is the create-time list.
   */
  lemma RefusalAgainstHistory(states: seq<State>, actions: seq<Action>, i: nat, issue: Issue, idx: nat, token: nat)
    requires IsRun(states, actions) && i < |states| && issue in states[i].issued
    requires issue.s in states[i].t.monitors && states[i].t.monitors[issue.s].Outstanding(issue.seqNo)
    ensures issue.s in states[i].lives
    ensures var m := states[i].t.monitors[issue.s];
            var t' := SettledWith(states[i].t, issue.s, issue.seqNo, Blocked(idx, token), issue.targets).0;
            && issue.s in t'.monitors
            && t'.monitors[issue.s].blocked == Some(BlockedPush(issue.targets, idx, token))
            && (issue.targets == t'.monitors[issue.s].targetModes <==>
                  LastCarried(states[i].lives[issue.s], m.modes, issue.targets))
  {
    RunsKeepInv(states, actions, i);
    var st := states[i];
    assert MonitorOk(st.t.monitors[issue.s], issue.s, st.t.connectors, st.t.updateSeq);
    HonouredIsAlive(st, issue);
    assert LifeOk(st.t.monitors[issue.s], st.lives[issue.s]);
    LastCarriedIsInForce(st.lives[issue.s], st.t.monitors[issue.s].modes, issue.targets);
  }

  lemma CreatedKeepsSeq(t: Table, nowMs: nat, req: CreateRequest, caps: Caps, select: u64 -> Result<u64>, preferred: u64)
    ensures CreatedTrusted(t, nowMs, req, caps, select, preferred).0.updateSeq == t.updateSeq
  {
  }

  lemma TickedKeepsSeq(t: Table, nowMs: nat)
    ensures Ticked(t, nowMs).updateSeq == t.updateSeq
  {
    DestroyEachRemoves(t, Ascending(Dead(t, nowMs)));
  }

  /** Ids only grow, and a life that begins now begins at the current one. */
  ghost predicate Ages(st: State, st': State, s: u64) {
    && st'.t.updateSeq >= st.t.updateSeq
    && (s in st'.lives ==>
          (s in st.lives && st'.lives[s].birth == st.lives[s].birth) || st'.lives[s].birth == st.t.updateSeq)
  }

  lemma StepAges(st: State, a: Action, s: u64)
    requires Enabled(st, a)
    ensures Ages(st, Next(st, a), s)
  {
    match a {
      case Create(nowMs, req, caps, select, preferred) => CreatedKeepsSeq(st.t, nowMs, req, caps, select, preferred);
      case Destroy(r) =>
      case Tick(nowMs) => TickedKeepsSeq(st.t, nowMs);
      case Ping(nowMs, r) =>
      case Update(r, specs, caps, token) =>
      case Settle(issue, result) => SettleOutcomeMeaning(st.t, issue.s, issue.seqNo, result, issue.targets);
    }
  }

  lemma BornSince(states: seq<State>, actions: seq<Action>, i: nat, j: nat, s: u64)
    requires IsRun(states, actions) && i <= j < |states| && s !in states[i].lives
    ensures s in states[j].lives ==> states[j].lives[s].birth >= states[i].t.updateSeq
  {
    for k := i to j
      invariant states[k].t.updateSeq >= states[i].t.updateSeq
      invariant s in states[k].lives ==> states[k].lives[s].birth >= states[i].t.updateSeq
    {
      assert Follows(states, actions, k);
      StepAges(states[k], actions[k], s);
    }
  }

  /** A settle of an update issued before a session was created never touches the table, whatever
      it reports and however often. */
  lemma DeadSettleIsInert(states: seq<State>, actions: seq<Action>, i: nat, j: nat, issue: Issue,
                          result: ModeUpdateResult)
    requires IsRun(states, actions) && i <= j < |states|
    requires issue in states[i].issued && issue.s !in states[i].t.monitors
    ensures SettledWith(states[j].t, issue.s, issue.seqNo, result, issue.targets) == (states[j].t, Stale)
  {
    RunsKeepInv(states, actions, i);
    RunsKeepInv(states, actions, j);
    BornSince(states, actions, i, j, issue.s);
    if issue.s in states[j].lives { assert LifeOk(states[j].t.monitors[issue.s], states[j].lives[issue.s]); }
  }
}
