/** What a device made from a stored blob takes over from it. */
module RestartProofs {
  import opened Prelude
  import opened Identity
  import opened Ordered
  import opened Persist
  import opened Dispatch
  import opened DispatchProofs

  ghost predicate WholeList(entries: seq<(u64, u32)>, cap: u32) {
    && (forall i, j :: 0 <= i < j < |entries| ==> entries[i].0 < entries[j].0 && entries[i].1 != entries[j].1)
    && forall i :: 0 <= i < |entries| ==> entries[i].1 < cap
  }

  /** A state a table of this size takes over as it is: ids rise, connectors are distinct and below the cap,
      and a pool, if there is one, has members. */
  ghost predicate TakenWhole(p: PersistedState, cap: u32) {
    WholeList(p.reservations, cap) && (p.pool.Some? ==> p.pool.value.count > 0)
  }

  lemma ListIsWhole(c: Connectors)
    requires Injective(c)
    ensures WholeList(ReservationList(c.reservations), c.maxConnectors)
  {
    var keys := Ascending(c.reservations.Keys);
    assert forall i :: 0 <= i < |keys| ==> keys[i] in keys;
  }

  /** Whatever a sound device would record is such a state. */
  lemma SavedIsWhole(dev: Device)
    requires DeviceInv(dev)
    ensures TakenWhole(Saved(dev), dev.cfg.TableCap())
  {
    ListIsWhole(dev.table.connectors);
  }

  function Ids(entries: seq<(u64, u32)>): (keys: seq<u64>)
    ensures |keys| == |entries| && forall i :: 0 <= i < |keys| ==> keys[i] == entries[i].0
  {
    seq(|entries|, i requires 0 <= i < |entries| => entries[i].0)
  }

  ghost function Entries(entries: seq<(u64, u32)>): (m: map<u64, u32>)
    requires forall i, j :: 0 <= i < j < |entries| ==> entries[i].0 < entries[j].0
    ensures forall i :: 0 <= i < |entries| ==> entries[i].0 in m && m[entries[i].0] == entries[i].1
    ensures forall d :: d in m ==> exists i :: 0 <= i < |entries| && entries[i].0 == d
  {
    map i | 0 <= i < |entries| :: entries[i].0 := entries[i].1
  }

  lemma EntriesAreOneToOne(entries: seq<(u64, u32)>, cap: u32)
    requires WholeList(entries, cap)
    ensures OneToOne(Entries(entries), cap)
  {
    var m := Entries(entries);
    forall d, e | d in m && e in m && d != e ensures m[d] != m[e] {
      var i :| 0 <= i < |entries| && entries[i].0 == d;
      var j :| 0 <= j < |entries| && entries[j].0 == e;
      assert i < j || j < i;
    }
  }

  lemma EveryIdIsAKey(entries: seq<(u64, u32)>, cap: u32)
    requires WholeList(entries, cap)
    ensures forall d :: d in Entries(entries) <==> d in Ids(entries)
  {
    forall d | d in Entries(entries) ensures d in Ids(entries) {
      var i :| 0 <= i < |entries| && entries[i].0 == d;
      assert Ids(entries)[i] in Ids(entries);
    }
  }

  lemma NothingIsLost(r: map<u64, u32>, m: map<u64, u32>, keys: seq<u64>)
    requires PartOf(r, m, []) && (forall d :: d in keys ==> d in r) && forall d :: d in m ==> d in keys
    ensures r == m
  {
  }

  /** Such a list is restored entry by entry, and listed again just so. */
  lemma WholeListComesBack(entries: seq<(u64, u32)>, cap: u32)
    requires WholeList(entries, cap)
    ensures ReservationList(Restored(NoConnectors(cap), entries).reservations) == entries
  {
    var m, keys := Entries(entries), Ids(entries);
    EntriesAreOneToOne(entries, cap);
    EveryIdIsAKey(entries, cap);
    assert Lists(entries, m, keys);
    RestoreGivesEveryEntryBack(NoConnectors(cap), m, keys, entries);
    NothingIsLost(Restored(NoConnectors(cap), entries).reservations, m, keys);
    SameKeys(m, keys, entries);
  }

  lemma SameKeys(m: map<u64, u32>, keys: seq<u64>, entries: seq<(u64, u32)>)
    requires Rising(keys) && Lists(entries, m, keys) && forall d :: d in m ==> d in keys
    ensures ReservationList(m) == entries
  {
    AscendingIsUnique(m.Keys, keys);
  }

  /**
   A device made from a blob would record just what the blob says exactly when its ids rise strictly, its
   connectors are distinct and below the cap of this device, and its pool, if any, has members. Any
   other blob it takes over in part, and nothing is written back.
   */
  lemma BlobIsTakenWhole(cfg: Config, stored: Option<seq<u8>>)
    ensures Saved(NewDevice(cfg, stored)) == Recorded(stored) <==> TakenWhole(Recorded(stored), cfg.TableCap())
  {
    var dev, p := NewDevice(cfg, stored), Recorded(stored);
    NewDeviceInv(cfg, stored);
    SavedIsWhole(dev);
    if TakenWhole(p, cfg.TableCap()) { WholeListComesBack(p.reservations, cfg.TableCap()); }
  }
}
