/** The decisions behind one push of a target list at a monitor. */
module ModePush {
  import opened Prelude
  import opened Modes
  import opened CommittedPaths

  /** The committed mode a path's signal block describes; None for anything it cannot reason about. */
  function FromSignal(width: u32, height: u32, vsyncNum: u64, vsyncDen: u64): Option<CommittedMode> {
    if width == 0 || height == 0 || vsyncDen == 0 || vsyncNum * 1000 > U64_MAX then None
    else
      var millihz := vsyncNum * 1000 / vsyncDen;
      if millihz == 0 || millihz > U32_MAX then None else Some(CommittedMode(width, height, millihz))
  }

  /** Whatever fraction of the reported rate the OS hands back, the millihertz come out the same. */
  lemma FromSignalIgnoresReduction(mode: CommittedMode, num: u64, den: u64)
    requires mode.width > 0 && mode.height > 0 && mode.refreshMillihz > 0
    requires den > 0 && num * 1000 <= U64_MAX && num * 1000 == mode.refreshMillihz * den
    ensures FromSignal(mode.width, mode.height, num, den) == Some(mode)
  {
    QuotientOfProduct(mode.refreshMillihz, den);
  }

  lemma QuotientOfProduct(a: nat, b: nat)
    requires b > 0
    ensures a * b / b == a
  {
    var q, r := a * b / b, a * b % b;
    assert (a - q) * b == r;
    if a > q { AtLeastOnce(a - q, b); }
  }

  lemma AtLeastOnce(k: nat, b: nat)
    requires k > 0
    ensures k * b >= b
  {
    assert k * b == b + (k - 1) * b;
  }

  /** The mode that was committed: the same size at the same rate, whatever depth and range it was offered with. */
  predicate Is(c: CommittedMode, m: Mode) {
    m.width == c.width && m.height == c.height && m.refreshMillihz == c.refreshMillihz
  }

  predicate Keeps(targets: seq<Mode>, c: CommittedMode) { exists m :: m in targets && Is(c, m) }

  /** Where the committed mode sits in the create-time list, first match. */
  function SupersetIndexOf(superset: seq<Mode>, c: CommittedMode): (r: Option<nat>)
    ensures r.None? <==> !Keeps(superset, c)
    ensures r.Some? ==> r.value < |superset| && Is(c, superset[r.value]) && !Keeps(superset[..r.value], c)
  {
    if superset == [] then None
    else if Is(c, superset[0]) then Some(0)
    else
      match SupersetIndexOf(superset[1..], c)
      case None => assert forall m :: m in superset ==> m == superset[0] || m in superset[1..]; None
      case Some(i) =>
        assert superset[1..][..i] == superset[1..i + 1];
        assert superset[..i + 1] == [superset[0]] + superset[1..i + 1];
        Some(i + 1)
  }

  datatype LiveGate =
    | Push
    | PushCommittedUnrecognised(committed: CommittedMode)
    | NotInSuperset
    | EvictsCommitted(committed: CommittedMode, supersetIdx: nat)
  {
    predicate Pushes() { Push? || PushCommittedUnrecognised? }
  }

  function Gate(superset: seq<Mode>, targets: seq<Mode>, committed: Option<CommittedMode>): LiveGate {
    if exists m :: m in targets && m !in superset then NotInSuperset
    else
      match committed
      case None => Push
      case Some(c) =>
        match SupersetIndexOf(superset, c)
        case None => PushCommittedUnrecognised(c)
        case Some(i) => if Keeps(targets, c) then Push else EvictsCommitted(c, i)
  }

  /**
   A list goes out exactly when it stays inside the create-time list and does not leave out a
   committed mode that list describes; a refusal names that mode, which the request left out.
   */
  lemma GateMeaning(superset: seq<Mode>, targets: seq<Mode>, committed: Option<CommittedMode>)
    ensures var g := Gate(superset, targets, committed);
            && (g.Pushes() <==>
                  && Within(targets, superset)
                  && (committed.Some? && Keeps(superset, committed.value) ==> Keeps(targets, committed.value)))
            && (g.NotInSuperset? <==> !Within(targets, superset))
            && (g.EvictsCommitted? ==>
                  && committed == Some(g.committed)
                  && g.supersetIdx < |superset|
                  && Is(g.committed, superset[g.supersetIdx])
                  && superset[g.supersetIdx] !in targets)
  {
  }

  /** What a push reports back to the session table. */
  datatype ModeUpdateResult = Applied | NotApplied | Blocked(supersetIdx: nat, token: nat)
  {
    predicate Commits() { Applied? }
  }

  datatype PushOutcome =
    | PushApplied(published: nat, superset: nat)
    | AppliedParked(published: nat, superset: nat)
    | Deferred(count: nat)
    | PushBlocked(committed: CommittedMode, supersetIdx: nat, token: nat, count: nat)
    | Failed(count: nat)
  {
    predicate Commits() { PushApplied? || AppliedParked? }

    predicate Retryable() { !PushBlocked? }

    function SettleResult(): (r: ModeUpdateResult)
      ensures r.Commits() <==> Commits()
      ensures r.Blocked? <==> !Retryable()
    {
      if Commits() then Applied
      else if PushBlocked? then Blocked(supersetIdx, token)
      else NotApplied
    }
  }

  /** A push that lands on a parked session patches the spec its re-arrival plugs with. */
  function ParkedPush(parkedSuperset: seq<Mode>, targets: seq<Mode>): (r: PushOutcome)
    ensures r.Commits() <==> targets != [] && Within(targets, parkedSuperset)
    ensures !r.Commits() ==> r.Retryable()
  {
    if targets == [] || exists m :: m in targets && m !in parkedSuperset then Failed(|targets|)
    else AppliedParked(|targets|, |parkedSuperset|)
  }

  /** The first monitor mode among those filled in that is being offered; 0 when none is. */
  method PreferredMonitorModeIdx(monitorModes: seq<Mode>, targets: seq<Mode>, fill: nat) returns (r: nat)
    ensures var limit := if fill < |monitorModes| then fill else |monitorModes|;
            if exists i :: 0 <= i < limit && monitorModes[i] in targets
            then r < limit && monitorModes[r] in targets && forall j :: 0 <= j < r ==> monitorModes[j] !in targets
            else r == 0
  {
    var limit := if fill < |monitorModes| then fill else |monitorModes|;
    for i := 0 to limit
      invariant forall j :: 0 <= j < i ==> monitorModes[j] !in targets
    {
      if monitorModes[i] in targets { return i; }
    }
    return 0;
  }
}
