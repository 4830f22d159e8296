/** The permanent pool: identical always-on displays outside any streaming session. */
module Permanent {
  import opened Prelude
  import opened Modes
  import opened Identity
  import opened Persist
  import opened Session

  const MAX_PERMANENT_DISPLAYS: u32 := 4

  /** Lease keys of pool members sit in the permanent range, apart from their display ids. */
  function PermanentSessionId(index: u32): u64 { 0x7100_0000_0000_0000 + index }

  function EmptyPool(): PoolConfig {
    PoolConfig(0, 0, 0, 0, 0, 0, 0, 0, seq(NAME_CHARS, i => 0))
  }

  predicate ValidPool(config: PoolConfig, caps: Caps, maxMonitors: u32) {
    && config.count <= MAX_PERMANENT_DISPLAYS && config.count <= maxMonitors
    && (config.count > 0 ==>
          Validate(ModeSpec(config.width, config.height, config.refreshMillihz), config.bitDepth, config.hdr, caps).Ok?)
  }

  /** The create request of one member: its own identity, a lease that never expires, one mode. */
  function MemberRequest(config: PoolConfig, index: u32): CreateRequest {
    CreateRequest(
      PermanentSessionId(index), PermanentDisplayId(index), 0, LEASE_TIMEOUT_DISABLED,
      config.bitDepth, config.hdr, 0, 0,
      1, [ModeSpec(config.width, config.height, config.refreshMillihz)],
      Looks(config.physicalWidthMm, config.physicalHeightMm, 0, config.name))
  }

  /** The members to destroy and those to create, as index ranges. */
  datatype Plan = Plan(destroyFrom: u32, destroyTo: u32, createFrom: u32, createTo: u32)

  function Reconcile(current: PoolConfig, desired: PoolConfig): (p: Plan)
    ensures p.destroyFrom <= p.destroyTo && p.createFrom <= p.createTo
  {
    if current.(count := desired.count) != desired then Plan(0, current.count, 0, desired.count)
    else if desired.count >= current.count then Plan(0, 0, current.count, desired.count)
    else Plan(desired.count, current.count, 0, 0)
  }

  /** Doing what the plan says turns members 0 to current.count into members 0 to desired.count, and
      keeps a member exactly when no setting changed. */
  lemma ReconcileReaches(current: PoolConfig, desired: PoolConfig, i: u32)
    ensures var p := Reconcile(current, desired);
            var destroyed := p.destroyFrom <= i < p.destroyTo;
            var created := p.createFrom <= i < p.createTo;
            && (i < desired.count <==> created || (i < current.count && !destroyed))
            && (destroyed ==> i < current.count)
            && (created && i < current.count ==> destroyed)
            && (i < current.count && i < desired.count ==>
                  (!destroyed && !created <==> current.(count := desired.count) == desired))
  {
  }
}
