/** Which reservation an acquire evicts, told from the history of the table alone. */
module ConnectorHistory {
  import opened Prelude
  import opened Identity

  /** One thing done to a connector table; a restore is one persisted entry. */
  datatype Use = RestoreEntry(d: u64, connector: u32) | Acquire(d: u64, active: set<u64>) | Release(d: u64)

  ghost function AfterUse(c: Connectors, u: Use): Connectors {
    match u
    case RestoreEntry(d, connector) => Restored(c, [(d, connector)])
    case Acquire(d, active) => Acquired(c, d, active).0
    case Release(d) => Released(c, d)
  }

  /** The table after a history, from empty. */
  ghost function After(cap: u32, uses: seq<Use>): Connectors {
    if uses == [] then NoConnectors(cap) else AfterUse(After(cap, uses[..|uses| - 1]), uses[|uses| - 1])
  }

  /** The identity is restored or acquired, and gets its connector. */
  ghost predicate Takes(c: Connectors, u: Use, d: u64) {
    match u
    case RestoreEntry(e, connector) => e == d && connector < c.maxConnectors && !Taken(c, connector)
    case Acquire(e, active) => e == d && Acquired(c, e, active).1.Some?
    case Release(_) => false
  }

  ghost predicate TakesAt(cap: u32, uses: seq<Use>, p: nat, d: u64)
    requires p < |uses|
  {
    Takes(After(cap, uses[..p]), uses[p], d)
  }

  /** Position p is the last at which d was restored or acquired. */
  ghost predicate LastTaken(cap: u32, uses: seq<Use>, p: nat, d: u64) {
    && p < |uses| && TakesAt(cap, uses, p, d)
    && forall q :: p < q < |uses| ==> !TakesAt(cap, uses, q, d)
  }

  // ----- ages follow positions -----

  /** The ages of the reserved identities stand in the order of the positions `last` gives. */
  ghost predicate AgesInOrder(c: Connectors, last: map<u64, nat>, n: nat) {
    && (forall d :: d in c.reservations ==>
          d in c.lastUsed && c.lastUsed[d] < c.nextAge && d in last && last[d] < n)
    && (forall d, e :: d in c.reservations && e in c.reservations && c.lastUsed[d] <= c.lastUsed[e] ==> last[d] <= last[e])
    && (forall d, e :: d in c.reservations && e in c.reservations && d != e ==> c.lastUsed[d] != c.lastUsed[e])
  }

  ghost predicate AgesTell(cap: u32, uses: seq<Use>, last: map<u64, nat>) {
    var c := After(cap, uses);
    AgesInOrder(c, last, |uses|) && forall d :: d in c.reservations ==> LastTaken(cap, uses, last[d], d)
  }

  lemma EarlierStaysLast(cap: u32, uses: seq<Use>, u: Use, p: nat, d: u64)
    requires LastTaken(cap, uses, p, d) && !Takes(After(cap, uses), u, d)
    ensures LastTaken(cap, uses + [u], p, d)
  {
    var uses' := uses + [u];
    forall q | 0 <= q < |uses| ensures TakesAt(cap, uses', q, d) <==> TakesAt(cap, uses, q, d) {
      assert uses'[..q] == uses[..q];
    }
    assert uses'[..|uses|] == uses;
  }

  lemma NewestIsLast(cap: u32, uses: seq<Use>, u: Use, d: u64)
    requires Takes(After(cap, uses), u, d)
    ensures LastTaken(cap, uses + [u], |uses|, d)
  {
    assert (uses + [u])[..|uses|] == uses;
  }

  lemma OneEntry(c: Connectors, d: u64, connector: u32)
    ensures Restored(c, [(d, connector)]) ==
            if connector < c.maxConnectors && !Taken(c, connector) then Reserve(c, d, connector) else c
  {
    assert [(d, connector)][0] == (d, connector) && [(d, connector)][1..] == [];
  }

  /** What one use does: d, if it takes one, is reserved with the newest age; nobody else's age moves. */
  ghost predicate AgesMove(c: Connectors, u: Use, c': Connectors) {
    && c'.nextAge >= c.nextAge
    && (forall d :: d in c'.reservations && Takes(c, u, d) ==>
          d in c'.lastUsed && c'.lastUsed[d] == c.nextAge && c'.nextAge == c.nextAge + 1)
    && (forall d :: d in c'.reservations && !Takes(c, u, d) ==>
          d in c.reservations && (d in c.lastUsed ==> d in c'.lastUsed && c'.lastUsed[d] == c.lastUsed[d]))
  }

  lemma UseAges(c: Connectors, u: Use)
    ensures AgesMove(c, u, AfterUse(c, u))
  {
    if u.RestoreEntry? { OneEntry(c, u.d, u.connector); }
  }

  ghost function LastNow(c: Connectors, u: Use, c': Connectors, last: map<u64, nat>, n: nat): map<u64, nat> {
    map d | d in c'.reservations :: if Takes(c, u, d) then n else if d in last then last[d] else 0
  }

  /** For one identity, and for two. */
  lemma AgeStands(c: Connectors, u: Use, c': Connectors, last: map<u64, nat>, n: nat, d: u64)
    requires AgesInOrder(c, last, n) && AgesMove(c, u, c') && d in c'.reservations
    ensures d in c'.lastUsed && c'.lastUsed[d] < c'.nextAge
    ensures LastNow(c, u, c', last, n)[d] <= n
    ensures if Takes(c, u, d) then c'.lastUsed[d] == c.nextAge && LastNow(c, u, c', last, n)[d] == n
            else d in c.reservations && c'.lastUsed[d] == c.lastUsed[d] < c.nextAge
                 && LastNow(c, u, c', last, n)[d] == last[d] < n
  {
  }

  lemma OrderStands(c: Connectors, u: Use, c': Connectors, last: map<u64, nat>, n: nat)
    requires AgesInOrder(c, last, n) && AgesMove(c, u, c')
    ensures AgesInOrder(c', LastNow(c, u, c', last, n), n + 1)
  {
    var last' := LastNow(c, u, c', last, n);
    forall d | d in c'.reservations ensures d in c'.lastUsed && c'.lastUsed[d] < c'.nextAge && last'[d] < n + 1 {
      AgeStands(c, u, c', last, n, d);
    }
    forall d, e | d in c'.reservations && e in c'.reservations && d != e
      ensures c'.lastUsed[d] != c'.lastUsed[e] && (c'.lastUsed[d] <= c'.lastUsed[e] ==> last'[d] <= last'[e])
    {
      AgeStands(c, u, c', last, n, d);
      AgeStands(c, u, c', last, n, e);
      assert !(Takes(c, u, d) && Takes(c, u, e));
    }
  }

  lemma OneMoreUse(cap: u32, uses: seq<Use>, last: map<u64, nat>, u: Use) returns (last': map<u64, nat>)
    requires AgesTell(cap, uses, last)
    ensures AgesTell(cap, uses + [u], last')
  {
    var c, uses' := After(cap, uses), uses + [u];
    assert uses'[..|uses'| - 1] == uses;
    var c' := After(cap, uses');
    assert c' == AfterUse(c, u);
    UseAges(c, u);
    last' := LastNow(c, u, c', last, |uses|);
    OrderStands(c, u, c', last, |uses|);
    forall d | d in c'.reservations ensures LastTaken(cap, uses', last'[d], d) {
      if Takes(c, u, d) { NewestIsLast(cap, uses, u, d); } else { EarlierStaysLast(cap, uses, u, last[d], d); }
    }
  }

  lemma {:induction false} HistoryTells(cap: u32, uses: seq<Use>) returns (last: map<u64, nat>)
    ensures AgesTell(cap, uses, last)
  {
    if uses == [] {
      last := map[];
    } else {
      var before := HistoryTells(cap, uses[..|uses| - 1]);
      last := OneMoreUse(cap, uses[..|uses| - 1], before, uses[|uses| - 1]);
      assert uses[..|uses| - 1] + [uses[|uses| - 1]] == uses;
    }
  }

  /**
   When an acquire costs an identity its reservation, that identity is not live, and every other reserved
   identity that is not live was restored or acquired after the last time it was.
   */
  lemma EvictedWasUsedLongestAgo(cap: u32, uses: seq<Use>, d: u64, active: set<u64>, v: u64)
    requires v in After(cap, uses).reservations && v !in After(cap, uses + [Acquire(d, active)]).reservations
    ensures v !in active
    ensures exists p :: LastTaken(cap, uses, p, v)
    ensures forall e :: e in After(cap, uses).reservations && e != v && e !in active ==>
              exists p, q :: p < q && LastTaken(cap, uses, p, v) && LastTaken(cap, uses, q, e)
  {
    var c := After(cap, uses);
    assert (uses + [Acquire(d, active)])[..|uses|] == uses;
    var last := HistoryTells(cap, uses);
    assert IsVictim(c, active, v);
    forall e | e in c.reservations && e != v && e !in active
      ensures exists p, q :: p < q && LastTaken(cap, uses, p, v) && LastTaken(cap, uses, q, e)
    {
      assert Older(c, v, e) && c.lastUsed[v] < c.lastUsed[e];
      SamePlaceSameIdentity(cap, uses, last[v], v, e);
      assert last[v] < last[e];
    }
  }

  /** A position takes one identity. */
  lemma SamePlaceSameIdentity(cap: u32, uses: seq<Use>, p: nat, d: u64, e: u64)
    requires LastTaken(cap, uses, p, d) && d != e
    ensures !LastTaken(cap, uses, p, e)
  {
  }

  /** A history of entries is what restoring them in one go comes to. */
  lemma {:induction false} RestoringIsEntryByEntry(c: Connectors, entries: seq<(u64, u32)>)
    requires entries != []
    ensures Restored(c, entries) == Restored(AfterUse(c, RestoreEntry(entries[0].0, entries[0].1)), entries[1..])
  {
    OneEntry(c, entries[0].0, entries[0].1);
  }
}
