/** Display identities and the connector reservations that outlive leases. */
module Identity {
  import opened Prelude

  const PERMANENT_DISPLAY_ID_BASE: u64 := 0x7000_0000_0000_0000
  const EPHEMERAL_DISPLAY_ID_BASE: u64 := 0xE000_0000_0000_0000
  const TOP_NIBBLE: nat := 0x1000_0000_0000_0000

  predicate IsPermanentDisplayId(id: u64) { id / TOP_NIBBLE == 7 }

  function PermanentDisplayId(index: u32): (id: u64)
    ensures IsPermanentDisplayId(id)
  {
    PERMANENT_DISPLAY_ID_BASE + index
  }

  function EphemeralDisplayId(sessionId: u64): (id: u64)
    ensures id >= EPHEMERAL_DISPLAY_ID_BASE && !IsPermanentDisplayId(id)
  {
    EPHEMERAL_DISPLAY_ID_BASE + sessionId % TOP_NIBBLE
  }

  function PermanentProductCode(index: u32): u16 { (0x4000 + index) % 0x1_0000 }

  function TemporaryProductCode(connector: u32): u16 { (0x5000 + connector) % 0x1_0000 }

  function LowBits(id: u64): bv32 { (id % 0x1_0000_0000) as bv32 }

  function HighBits(id: u64): bv32 { (id / 0x1_0000_0000) as bv32 }

  function Xor(a: bv32, b: bv32): u32 { (a ^ b) as u32 }

  /** The low word xor the high word. */
  function SerialFromDisplayId(id: u64): u32 { Xor(LowBits(id), HighBits(id)) }

  lemma XorOfBits(a: bv32, b: bv32)
    ensures Xor(a, b) == Xor(b, a)
    ensures a == b ==> Xor(a, b) == 0
  {
    assert a ^ b == b ^ a;
  }

  /** The serial mixes both halves of the id alike, and halves that agree cancel out. */
  lemma SerialMixesTheHalves(id: u64, other: u64)
    requires id % 0x1_0000_0000 == other / 0x1_0000_0000 && id / 0x1_0000_0000 == other % 0x1_0000_0000
    ensures SerialFromDisplayId(id) == SerialFromDisplayId(other)
    ensures id == other ==> SerialFromDisplayId(id) == 0
  {
    XorOfBits(LowBits(id), HighBits(id));
  }

  /** The first 0x1000 pool members have product codes of their own, below those of every connector. */
  lemma ProductCodesTellApart(i: u32, j: u32, connector: u32)
    requires i < 0x1000 && j < 0x1000 && connector < 0x1000
    ensures PermanentProductCode(i) == PermanentProductCode(j) ==> i == j
    ensures 0x4000 <= PermanentProductCode(i) < 0x5000 <= TemporaryProductCode(connector)
    ensures TemporaryProductCode(i) == TemporaryProductCode(j) ==> i == j
  {
  }

  // ----- connector reservations -----

  /** The value of a connector table: reservations, ages of last use, and the next age. */
  datatype Connectors = Connectors(
    maxConnectors: u32, reservations: map<u64, u32>, nextAge: nat, lastUsed: map<u64, nat>)

  function NoConnectors(maxConnectors: u32): Connectors { Connectors(maxConnectors, map[], 0, map[]) }

  /** Two identities never share a connector and every connector exists. */
  ghost predicate Injective(c: Connectors) {
    && (forall d :: d in c.reservations ==> c.reservations[d] < c.maxConnectors)
    && (forall d, e :: d in c.reservations && e in c.reservations && d != e ==>
          c.reservations[d] != c.reservations[e])
  }

  predicate Taken(c: Connectors, connector: u32) { connector in c.reservations.Values }

  /** The lowest connector from k on that nobody has reserved. */
  function LowestFree(c: Connectors, k: u32): (r: Option<u32>)
    requires k <= c.maxConnectors
    ensures r.Some? ==> k <= r.value < c.maxConnectors && !Taken(c, r.value)
    ensures r.Some? ==> forall j: u32 :: k <= j < r.value ==> Taken(c, j)
    ensures r.None? ==> forall j: u32 :: k <= j < c.maxConnectors ==> Taken(c, j)
    decreases c.maxConnectors - k
  {
    if k == c.maxConnectors then None
    else if !Taken(c, k) then Some(k)
    else LowestFree(c, k + 1)
  }

  function Age(c: Connectors, d: u64): nat { if d in c.lastUsed then c.lastUsed[d] else 0 }

  /** d comes before e in eviction order: used longer ago, the smaller id on a tie. */
  predicate Older(c: Connectors, d: u64, e: u64) {
    Age(c, d) < Age(c, e) || (Age(c, d) == Age(c, e) && d <= e)
  }

  /** d is the reservation to evict: not live, and used longest ago among those. */
  ghost predicate IsVictim(c: Connectors, active: set<u64>, d: u64) {
    && d in c.reservations && d !in active
    && forall e :: e in c.reservations && e !in active ==> Older(c, d, e)
  }

  ghost function Victim(c: Connectors, active: set<u64>): Option<u64> {
    if d: u64 :| IsVictim(c, active, d) then Some(d) else None
  }

  function Reserve(c: Connectors, d: u64, connector: u32): Connectors {
    c.(reservations := c.reservations[d := connector],
       lastUsed := c.lastUsed[d := c.nextAge], nextAge := c.nextAge + 1)
  }

  function Released(c: Connectors, d: u64): Connectors {
    c.(reservations := c.reservations - {d}, lastUsed := c.lastUsed - {d})
  }

  /** The identity's own connector, else the lowest free one, else that of the least recently used
      identity that is not live; None when every reservation is live. */
  ghost function Acquired(c: Connectors, d: u64, active: set<u64>): (Connectors, Option<u32>) {
    if d in c.reservations then (Reserve(c, d, c.reservations[d]), Some(c.reservations[d]))
    else
      match LowestFree(c, 0)
      case Some(connector) => (Reserve(c, d, connector), Some(connector))
      case None =>
        match Victim(c, active)
        case None => (c.(nextAge := c.nextAge + 1), None)
        case Some(v) =>
          if v in c.reservations then (Reserve(Released(c, v), d, c.reservations[v]), Some(c.reservations[v]))
          else (c, None)
  }

  /** Persisted entries, front to back: out-of-range and already-claimed connectors are dropped. */
  function Restored(c: Connectors, entries: seq<(u64, u32)>): Connectors
    decreases |entries|
  {
    if entries == [] then c
    else
      var (d, connector) := entries[0];
      var c' := if connector < c.maxConnectors && !Taken(c, connector) then Reserve(c, d, connector) else c;
      Restored(c', entries[1..])
  }

  // ----- the table itself -----

  class ConnectorTable {
    const maxConnectors: u32
    var reservations: map<u64, u32>
    var nextAge: nat
    var lastUsed: map<u64, nat>

    function Value(): Connectors
      reads this
    {
      Connectors(maxConnectors, reservations, nextAge, lastUsed)
    }

    constructor (maxConnectors: u32)
      ensures Value() == NoConnectors(maxConnectors)
    {
      this.maxConnectors := maxConnectors;
      reservations, nextAge, lastUsed := map[], 0, map[];
    }

    method Restore(entries: seq<(u64, u32)>)
      modifies this
      ensures Value() == Restored(old(Value()), entries)
    {
      for i := 0 to |entries|
        invariant Restored(Value(), entries[i..]) == Restored(old(Value()), entries)
      {
        var (d, connector) := entries[i];
        assert entries[i..][1..] == entries[i + 1..];
        if connector < maxConnectors && connector !in reservations.Values {
          reservations := reservations[d := connector];
          lastUsed := lastUsed[d := nextAge];
          nextAge := nextAge + 1;
        }
      }
    }

    method Acquire(d: u64, active: set<u64>) returns (r: Option<u32>)
      modifies this
      ensures (Value(), r) == Acquired(old(Value()), d, active)
    {
      var age := nextAge;
      nextAge := nextAge + 1;
      if d in reservations {
        lastUsed := lastUsed[d := age];
        assert reservations[d := reservations[d]] == reservations;
        return Some(reservations[d]);
      }
      var free := FindFree();
      assert free == LowestFree(Value(), 0) == LowestFree(old(Value()), 0) by {
        SameFree(Value(), old(Value()), 0);
      }
      var connector;
      if free.Some? {
        connector := free.value;
      } else {
        var victim := FindVictim(active);
        assert forall v :: IsVictim(Value(), active, v) <==> IsVictim(old(Value()), active, v);
        if victim.None? { return None; }
        VictimIsUnique(old(Value()), active, victim.value);
        connector := reservations[victim.value];
        reservations := reservations - {victim.value};
        lastUsed := lastUsed - {victim.value};
      }
      reservations := reservations[d := connector];
      lastUsed := lastUsed[d := age];
      return Some(connector);
    }

    method FindFree() returns (r: Option<u32>)
      ensures r == LowestFree(Value(), 0)
    {
      var k: u32 := 0;
      while k < maxConnectors
        invariant 0 <= k <= maxConnectors
        invariant LowestFree(Value(), 0) == LowestFree(Value(), k)
      {
        if k !in reservations.Values { return Some(k); }
        k := k + 1;
      }
      return None;
    }

    /** The least recently used reservation whose identity is not live. */
    method FindVictim(active: set<u64>) returns (r: Option<u64>)
      ensures r.Some? ==> IsVictim(Value(), active, r.value)
      ensures r.None? ==> forall d: u64 :: !IsVictim(Value(), active, d)
    {
      var rest := reservations.Keys - active;
      var seen: set<u64> := {};
      r := None;
      while rest != {}
        invariant rest + seen == reservations.Keys - active
        invariant r.None? <==> seen == {}
        invariant r.Some? ==> r.value in seen && forall e :: e in seen ==> Older(Value(), r.value, e)
        decreases rest
      {
        var d :| d in rest;
        rest, seen := rest - {d}, seen + {d};
        if r.None? || Older(Value(), d, r.value) { r := Some(d); }
      }
      assert forall d :: d in reservations && d !in active ==> d in rest + seen;
    }

    method Release(d: u64)
      modifies this
      ensures Value() == Released(old(Value()), d)
    {
      reservations := reservations - {d};
      lastUsed := lastUsed - {d};
    }
  }

  lemma {:induction false} SameFree(c: Connectors, c': Connectors, k: u32)
    requires c.maxConnectors == c'.maxConnectors && c.reservations == c'.reservations && k <= c.maxConnectors
    ensures LowestFree(c, k) == LowestFree(c', k)
    decreases c.maxConnectors - k
  {
    if k < c.maxConnectors { SameFree(c, c', k + 1); }
  }

  lemma VictimIsUnique(c: Connectors, active: set<u64>, d: u64)
    requires IsVictim(c, active, d)
    ensures Victim(c, active) == Some(d)
  {
    assert forall e: u64 :: IsVictim(c, active, e) ==> Older(c, d, e) && Older(c, e, d);
  }

  // ----- what acquiring keeps -----

  lemma {:induction false} OldestExists(c: Connectors, s: set<u64>) returns (d: u64)
    requires s != {}
    ensures d in s && forall e :: e in s ==> Older(c, d, e)
    decreases s
  {
    d :| d in s;
    if s != {d} {
      var e := OldestExists(c, s - {d});
      assert forall x :: x in s ==> x == d || Older(c, e, x);
      if !Older(c, d, e) { d := e; }
    }
  }

  lemma {:induction false} NoMoreValuesThanKeys(m: map<u64, u32>)
    ensures |m.Values| <= |m.Keys|
  {
    if m == map[] {
      assert m.Values == {};
    } else {
      var k :| k in m;
      var m' := m - {k};
      NoMoreValuesThanKeys(m');
      assert m'.Keys == m.Keys - {k};
      forall v | v in m.Values ensures v in m'.Values + {m[k]} {
        var x :| x in m && m[x] == v;
        assert x != k ==> m'[x] == v;
      }
      SubsetSize(m.Values, m'.Values + {m[k]});
    }
  }

  lemma {:induction false} SubsetSize<T>(a: set<T>, b: set<T>)
    requires a <= b
    ensures |a| <= |b|
  {
    if a != {} {
      var x :| x in a;
      SubsetSize(a - {x}, b - {x});
    }
  }

  lemma {:induction false} AtLeastAllBelow(s: set<u32>, n: u32)
    requires forall j: u32 :: j < n ==> j in s
    ensures n <= |s|
  {
    if n > 0 {
      var last: u32 := n - 1;
      AtLeastAllBelow(s - {last}, last);
    }
  }

  /** Below the cap somebody who is not live can always make room. */
  lemma AcquireSucceedsBelowTheCap(c: Connectors, d: u64, active: set<u64>)
    requires |active| < c.maxConnectors
    ensures Acquired(c, d, active).1.Some?
  {
    if d !in c.reservations && LowestFree(c, 0).None? {
      forall j: u32 | j < c.maxConnectors ensures j in c.reservations.Values { assert Taken(c, j); }
      AtLeastAllBelow(c.reservations.Values, c.maxConnectors);
      NoMoreValuesThanKeys(c.reservations);
      var idle := c.reservations.Keys - active;
      if idle == {} {
        assert forall x :: x in c.reservations.Keys ==> x in active || x in idle;
        SubsetSize(c.reservations.Keys, active);
        assert false;
      }
      var v := OldestExists(c, idle);
      VictimIsUnique(c, active, v);
    }
  }

  /**
   A successful acquire gives the identity a connector of its own, gives a returning identity the
   one it had, and takes nobody's away but, when all are taken, that of the least recently used
   identity that is not live.
   */
  lemma AcquireMeaning(c: Connectors, d: u64, active: set<u64>)
    requires Injective(c) && Acquired(c, d, active).1.Some?
    ensures var (c', r) := Acquired(c, d, active);
            && Injective(c')
            && d in c'.reservations && c'.reservations[d] == r.value
            && (d in c.reservations ==> c'.reservations == c.reservations)
            && (forall e :: e in c.reservations && e in active ==>
                  e in c'.reservations && c'.reservations[e] == c.reservations[e])
            && (forall e :: e in c.reservations && e !in c'.reservations ==>
                  IsVictim(c, active, e) && forall j: u32 :: j < c.maxConnectors ==> Taken(c, j))
  {
    if d in c.reservations {
      assert c.reservations[d := c.reservations[d]] == c.reservations;
    } else if LowestFree(c, 0).Some? {
      ReserveFree(c, d, LowestFree(c, 0).value);
    } else {
      var v := Victim(c, active).value;
      assert IsVictim(c, active, v);
      ReleaseMeaning(c, v);
      ReserveFree(Released(c, v), d, c.reservations[v]);
    }
  }

  lemma ReserveFree(c: Connectors, d: u64, connector: u32)
    requires Injective(c) && d !in c.reservations && connector < c.maxConnectors && !Taken(c, connector)
    ensures Injective(Reserve(c, d, connector))
    ensures forall e :: e in c.reservations ==> Reserve(c, d, connector).reservations[e] == c.reservations[e]
  {
    forall e | e in c.reservations ensures c.reservations[e] != connector {
      assert c.reservations[e] in c.reservations.Values;
    }
  }

  /** Releasing an identity costs nobody else a reservation. */
  lemma ReleaseMeaning(c: Connectors, d: u64)
    requires Injective(c)
    ensures Injective(Released(c, d)) && d !in Released(c, d).reservations
    ensures d in c.reservations ==> !Taken(Released(c, d), c.reservations[d])
    ensures forall e :: e in c.reservations && e != d ==>
              e in Released(c, d).reservations && Released(c, d).reservations[e] == c.reservations[e]
  {
  }

  /** Whatever the persisted bytes said, the restored reservations are injective and in range. */
  lemma {:induction false} RestoreIsInjective(c: Connectors, entries: seq<(u64, u32)>)
    requires Injective(c)
    ensures Injective(Restored(c, entries))
    decreases |entries|
  {
    if entries != [] {
      var (d, connector) := entries[0];
      var c' := if connector < c.maxConnectors && !Taken(c, connector) then Reserve(c, d, connector) else c;
      RestoreIsInjective(c', entries[1..]);
    }
  }
}
