/** The blob that carries reservations and the permanent pool across a driver restart. */
module Persist {
  import opened Prelude
  import opened Identity
  import opened Ordered

  const PERSIST_MAGIC: u32 := 0x4C56_4750
  const PERSIST_SCHEMA: u32 := 1
  const MAX_RESERVATIONS: nat := 1024
  const NAME_CHARS: nat := 32

  datatype PoolConfig = PoolConfig(
    count: u32, width: u32, height: u32, refreshMillihz: u32, bitDepth: u32, hdr: u32,
    physicalWidthMm: u32, physicalHeightMm: u32, name: seq<u16>)
  {
    /** The name is a fixed array. */
    predicate Valid() { |name| == NAME_CHARS }

    function Words(): (r: seq<u32>)
      ensures |r| == 8
    {
      [count, width, height, refreshMillihz, bitDepth, hdr, physicalWidthMm, physicalHeightMm]
    }
  }

  datatype PersistedState = PersistedState(reservations: seq<(u64, u32)>, pool: Option<PoolConfig>)
  {
    predicate Valid() { pool.Some? ==> pool.value.Valid() }
  }

  // ----- little-endian integers -----

  function Range(n: nat): (r: nat)
    ensures r > 0
  {
    if n == 0 then 1 else 0x100 * Range(n - 1)
  }

  lemma RangeOf248()
    ensures Range(2) == 0x1_0000 && Range(4) == 0x1_0000_0000 && Range(8) == 0x1_0000_0000_0000_0000
  {
    assert Range(3) == 0x100_0000 && Range(5) == 0x100_0000_0000 && Range(6) == 0x1_0000_0000_0000;
  }

  function Le(v: nat, n: nat): (r: seq<u8>)
    ensures |r| == n
  {
    if n == 0 then [] else [(v % 0x100) as u8] + Le(v / 0x100, n - 1)
  }

  function FromLe(b: seq<u8>): (v: nat)
    ensures v < Range(|b|)
  {
    if b == [] then 0 else b[0] as nat + 0x100 * FromLe(b[1..])
  }

  lemma {:induction false} FromLeOfLe(v: nat, n: nat)
    requires v < Range(n)
    ensures FromLe(Le(v, n)) == v
  {
    if n > 0 {
      FromLeOfLe(v / 0x100, n - 1);
      assert Le(v, n)[1..] == Le(v / 0x100, n - 1);
    }
  }

  // ----- writing -----

  function WordBytes(vals: seq<u32>): (r: seq<u8>)
    ensures |r| == 4 * |vals|
  {
    if vals == [] then [] else WordBytes(vals[..|vals| - 1]) + Le(vals[|vals| - 1], 4)
  }

  function NameBytes(vals: seq<u16>): (r: seq<u8>)
    ensures |r| == 2 * |vals|
  {
    if vals == [] then [] else NameBytes(vals[..|vals| - 1]) + Le(vals[|vals| - 1], 2)
  }

  function ReservationBytes(entries: seq<(u64, u32)>): (r: seq<u8>)
    ensures |r| == 12 * |entries|
  {
    if entries == [] then []
    else
      var (d, connector) := entries[|entries| - 1];
      ReservationBytes(entries[..|entries| - 1]) + (Le(d, 8) + Le(connector, 4))
  }

  function HeaderWords(count: nat): (r: seq<u32>)
    ensures |r| == 3
  {
    [PERSIST_MAGIC, PERSIST_SCHEMA, count % 0x1_0000_0000]
  }

  function PoolWords(pool: Option<PoolConfig>): (r: seq<u32>)
    ensures |r| == if pool.Some? then 9 else 1
  {
    match pool
    case None => [0]
    case Some(p) => [1] + p.Words()
  }

  function PoolName(pool: Option<PoolConfig>): seq<u16> { if pool.Some? then pool.value.name else [] }

  function Serialized(s: PersistedState): seq<u8> {
    WordBytes(HeaderWords(|s.reservations|)) +
    (ReservationBytes(s.reservations) + (WordBytes(PoolWords(s.pool)) + NameBytes(PoolName(s.pool))))
  }

  /** Each word appended in turn, four bytes at a time. */
  method PutWords(out: seq<u8>, words: seq<u32>) returns (out': seq<u8>)
    ensures out' == out + WordBytes(words)
  {
    out' := out;
    for i := 0 to |words|
      invariant out' == out + WordBytes(words[..i])
    {
      assert words[..i + 1][..i] == words[..i];
      out' := out' + Le(words[i], 4);
    }
    assert words[..|words|] == words;
  }

  method PutReservations(out: seq<u8>, entries: seq<(u64, u32)>) returns (out': seq<u8>)
    ensures out' == out + ReservationBytes(entries)
  {
    out' := out;
    for i := 0 to |entries|
      invariant out' == out + ReservationBytes(entries[..i])
    {
      var (d, connector) := entries[i];
      assert entries[..i + 1][..i] == entries[..i];
      out' := out' + Le(d, 8);
      out' := out' + Le(connector, 4);
    }
    assert entries[..|entries|] == entries;
  }

  method PutName(out: seq<u8>, name: seq<u16>) returns (out': seq<u8>)
    ensures out' == out + NameBytes(name)
  {
    out' := out;
    for i := 0 to |name|
      invariant out' == out + NameBytes(name[..i])
    {
      assert name[..i + 1][..i] == name[..i];
      out' := out' + Le(name[i], 2);
    }
    assert name[..|name|] == name;
  }

  lemma LeftToRight<T>(a: seq<T>, b: seq<T>, c: seq<T>, d: seq<T>)
    ensures (([] + a + b) + c) + d == a + (b + (c + d))
  {
  }

  method Serialize(s: PersistedState) returns (out: seq<u8>)
    ensures out == Serialized(s)
  {
    out := PutWords([], HeaderWords(|s.reservations|));
    out := PutReservations(out, s.reservations);
    out := PutWords(out, PoolWords(s.pool));
    out := PutName(out, PoolName(s.pool));
    LeftToRight(WordBytes(HeaderWords(|s.reservations|)), ReservationBytes(s.reservations),
                WordBytes(PoolWords(s.pool)), NameBytes(PoolName(s.pool)));
  }

  // ----- reading -----

  function At(data: seq<u8>, at: nat, n: nat): nat
    requires at + n <= |data|
  {
    FromLe(data[at..at + n])
  }

  function U16At(data: seq<u8>, at: nat): u16
    requires at + 2 <= |data|
  {
    RangeOf248(); At(data, at, 2)
  }

  function U32At(data: seq<u8>, at: nat): u32
    requires at + 4 <= |data|
  {
    RangeOf248(); At(data, at, 4)
  }

  function U64At(data: seq<u8>, at: nat): u64
    requires at + 8 <= |data|
  {
    RangeOf248(); At(data, at, 8)
  }

  /** A cursor over untrusted bytes: a read that would pass the end fails. */
  class Reader {
    const data: seq<u8>
    var at: nat

    constructor (data: seq<u8>)
      ensures this.data == data && at == 0
    {
      this.data, at := data, 0;
    }

    method U16() returns (r: Option<u16>)
      modifies this
      ensures r == if old(at) + 2 <= |data| then Some(U16At(data, old(at))) else None
      ensures at == if r.Some? then old(at) + 2 else old(at)
    {
      if at + 2 > |data| { return None; }
      at := at + 2;
      return Some(U16At(data, at - 2));
    }

    method U32() returns (r: Option<u32>)
      modifies this
      ensures r == if old(at) + 4 <= |data| then Some(U32At(data, old(at))) else None
      ensures at == if r.Some? then old(at) + 4 else old(at)
    {
      if at + 4 > |data| { return None; }
      at := at + 4;
      return Some(U32At(data, at - 4));
    }

    method U64() returns (r: Option<u64>)
      modifies this
      ensures r == if old(at) + 8 <= |data| then Some(U64At(data, old(at))) else None
      ensures at == if r.Some? then old(at) + 8 else old(at)
    {
      if at + 8 > |data| { return None; }
      at := at + 8;
      return Some(U64At(data, at - 8));
    }
  }

  function Entries(data: seq<u8>, at: nat, k: nat): (r: seq<(u64, u32)>)
    requires at + 12 * k <= |data|
    ensures |r| == k
  {
    if k == 0 then []
    else Entries(data, at, k - 1) + [(U64At(data, at + 12 * (k - 1)), U32At(data, at + 12 * k - 4))]
  }

  function Words(data: seq<u8>, at: nat, k: nat): (r: seq<u32>)
    requires at + 4 * k <= |data|
    ensures |r| == k
  {
    if k == 0 then [] else Words(data, at, k - 1) + [U32At(data, at + 4 * (k - 1))]
  }

  function Halves(data: seq<u8>, at: nat, k: nat): (r: seq<u16>)
    requires at + 2 * k <= |data|
    ensures |r| == k
  {
    if k == 0 then [] else Halves(data, at, k - 1) + [U16At(data, at + 2 * (k - 1))]
  }

  function PoolOf(w: seq<u32>, name: seq<u16>): PoolConfig
    requires |w| == 8
  {
    PoolConfig(w[0], w[1], w[2], w[3], w[4], w[5], w[6], w[7], name)
  }

  function ParsedPool(data: seq<u8>, at: nat): Option<Option<PoolConfig>> {
    if at + 4 > |data| then None
    else if U32At(data, at) == 0 then Some(None)
    else if at + 100 > |data| then None
    else Some(Some(PoolOf(Words(data, at, 9)[1..], Halves(data, at + 36, NAME_CHARS))))
  }

  function Parsed(blob: seq<u8>): Option<PersistedState> {
    if |blob| < 12 || U32At(blob, 0) != PERSIST_MAGIC || U32At(blob, 4) != PERSIST_SCHEMA then None
    else
      var count := U32At(blob, 8);
      if count > MAX_RESERVATIONS || 12 + 12 * count > |blob| then None
      else
        match ParsedPool(blob, 12 + 12 * count)
        case None => None
        case Some(pool) => Some(PersistedState(Entries(blob, 12, count), pool))
  }

  method ParsePool(r: Reader) returns (ok: bool, pool: Option<PoolConfig>)
    modifies r
    ensures ParsedPool(r.data, old(r.at)) == if ok then Some(pool) else None
  {
    var start := r.at;
    var present := r.U32();
    if present.None? { return false, None; }
    if present.value == 0 { return true, None; }
    var vals: seq<u32> := [];
    for i := 0 to 8
      invariant r.at == start + 4 + 4 * i <= |r.data|
      invariant [present.value] + vals == Words(r.data, start, i + 1)
    {
      var v := r.U32();
      if v.None? { return false, None; }
      vals := vals + [v.value];
    }
    assert vals == Words(r.data, start, 9)[1..];
    var name: seq<u16> := [];
    for i := 0 to NAME_CHARS
      invariant r.at == start + 36 + 2 * i <= |r.data|
      invariant name == Halves(r.data, start + 36, i)
    {
      var ch := r.U16();
      if ch.None? { return false, None; }
      name := name + [ch.value];
    }
    return true, Some(PoolOf(vals, name));
  }

  method ParseReservations(r: Reader, count: nat) returns (ok: bool, reservations: seq<(u64, u32)>)
    modifies r
    requires r.at <= |r.data|
    ensures ok <==> old(r.at) + 12 * count <= |r.data|
    ensures ok ==> r.at == old(r.at) + 12 * count && reservations == Entries(r.data, old(r.at), count)
  {
    var start := r.at;
    reservations := [];
    for i := 0 to count
      invariant r.at == start + 12 * i <= |r.data|
      invariant reservations == Entries(r.data, start, i)
    {
      var d := r.U64();
      if d.None? { return false, []; }
      var connector := r.U32();
      if connector.None? { return false, []; }
      reservations := reservations + [(d.value, connector.value)];
    }
    ok := true;
  }

  method Parse(blob: seq<u8>) returns (s: Option<PersistedState>)
    ensures s == Parsed(blob)
  {
    var r := new Reader(blob);
    var magic := r.U32();
    if magic.None? || magic.value != PERSIST_MAGIC { return None; }
    var schema := r.U32();
    if schema.None? || schema.value != PERSIST_SCHEMA { return None; }
    var count := r.U32();
    if count.None? || count.value > MAX_RESERVATIONS { return None; }
    var ok, reservations := ParseReservations(r, count.value);
    if !ok { return None; }
    var pool;
    ok, pool := ParsePool(r);
    if !ok { return None; }
    return Some(PersistedState(reservations, pool));
  }

  // ----- the round trip -----

  ghost predicate Holds(data: seq<u8>, at: nat, bytes: seq<u8>) {
    at + |bytes| <= |data| && data[at..at + |bytes|] == bytes
  }

  lemma HoldsParts(data: seq<u8>, at: nat, x: seq<u8>, y: seq<u8>)
    requires Holds(data, at, x + y)
    ensures Holds(data, at, x) && Holds(data, at + |x|, y)
  {
    assert forall i :: 0 <= i < |x| ==> (x + y)[i] == x[i];
    assert forall i :: 0 <= i < |y| ==> (x + y)[|x| + i] == y[i];
  }

  lemma AtReadsBack(data: seq<u8>, at: nat, v: nat, n: nat)
    requires Holds(data, at, Le(v, n)) && v < Range(n)
    ensures At(data, at, n) == v
  {
    FromLeOfLe(v, n);
  }

  lemma {:induction false} EntriesReadBack(data: seq<u8>, at: nat, entries: seq<(u64, u32)>)
    requires Holds(data, at, ReservationBytes(entries))
    ensures Entries(data, at, |entries|) == entries
  {
    if entries != [] {
      var k := |entries| - 1;
      var (d, connector) := entries[k];
      HoldsParts(data, at, ReservationBytes(entries[..k]), Le(d, 8) + Le(connector, 4));
      HoldsParts(data, at + 12 * k, Le(d, 8), Le(connector, 4));
      EntriesReadBack(data, at, entries[..k]);
      RangeOf248();
      AtReadsBack(data, at + 12 * k, d, 8);
      AtReadsBack(data, at + 12 * k + 8, connector, 4);
      assert entries == entries[..k] + [entries[k]];
    }
  }

  lemma {:induction false} WordsReadBack(data: seq<u8>, at: nat, vals: seq<u32>)
    requires Holds(data, at, WordBytes(vals))
    ensures Words(data, at, |vals|) == vals
  {
    if vals != [] {
      var k := |vals| - 1;
      HoldsParts(data, at, WordBytes(vals[..k]), Le(vals[k], 4));
      WordsReadBack(data, at, vals[..k]);
      RangeOf248();
      AtReadsBack(data, at + 4 * k, vals[k], 4);
      assert vals == vals[..k] + [vals[k]];
    }
  }

  lemma {:induction false} HalvesReadBack(data: seq<u8>, at: nat, vals: seq<u16>)
    requires Holds(data, at, NameBytes(vals))
    ensures Halves(data, at, |vals|) == vals
  {
    if vals != [] {
      var k := |vals| - 1;
      HoldsParts(data, at, NameBytes(vals[..k]), Le(vals[k], 2));
      HalvesReadBack(data, at, vals[..k]);
      RangeOf248();
      AtReadsBack(data, at + 2 * k, vals[k], 2);
      assert vals == vals[..k] + [vals[k]];
    }
  }

  lemma {:induction false} FirstWord(data: seq<u8>, at: nat, k: nat)
    requires 0 < k && at + 4 * k <= |data|
    ensures Words(data, at, k)[0] == U32At(data, at)
  {
    if k > 1 { FirstWord(data, at, k - 1); }
  }

  lemma PoolReadsBack(data: seq<u8>, at: nat, pool: Option<PoolConfig>)
    requires Holds(data, at, WordBytes(PoolWords(pool)) + NameBytes(PoolName(pool)))
    requires pool.Some? ==> pool.value.Valid()
    ensures ParsedPool(data, at) == Some(pool)
  {
    var words, name := PoolWords(pool), PoolName(pool);
    HoldsParts(data, at, WordBytes(words), NameBytes(name));
    WordsReadBack(data, at, words);
    FirstWord(data, at, |words|);
    HalvesReadBack(data, at + 4 * |words|, name);
    if pool.Some? { assert words[1..] == pool.value.Words(); }
  }

  lemma ThreeWords(data: seq<u8>)
    requires 12 <= |data|
    ensures Words(data, 0, 3) == [U32At(data, 0), U32At(data, 4), U32At(data, 8)]
  {
    assert Words(data, 0, 1) == [U32At(data, 0)];
    assert Words(data, 0, 2) == [U32At(data, 0), U32At(data, 4)];
  }

  lemma HeaderReadsBack(data: seq<u8>, count: nat)
    requires Holds(data, 0, WordBytes(HeaderWords(count))) && count < 0x1_0000_0000
    ensures U32At(data, 0) == PERSIST_MAGIC && U32At(data, 4) == PERSIST_SCHEMA && U32At(data, 8) == count
  {
    WordsReadBack(data, 0, HeaderWords(count));
    ThreeWords(data);
  }

  lemma PartsOfBlob(s: PersistedState, data: seq<u8>)
    requires Serialized(s) <= data
    ensures Holds(data, 0, WordBytes(HeaderWords(|s.reservations|)))
    ensures Holds(data, 12, ReservationBytes(s.reservations))
    ensures Holds(data, 12 + 12 * |s.reservations|, WordBytes(PoolWords(s.pool)) + NameBytes(PoolName(s.pool)))
  {
    var entries, pool := ReservationBytes(s.reservations), WordBytes(PoolWords(s.pool)) + NameBytes(PoolName(s.pool));
    HoldsParts(data, 0, WordBytes(HeaderWords(|s.reservations|)), entries + pool);
    HoldsParts(data, 12, entries, pool);
  }

  lemma ParsedFromParts(data: seq<u8>, count: nat, pool: Option<PoolConfig>)
    requires 12 + 12 * count <= |data| && count <= MAX_RESERVATIONS
    requires U32At(data, 0) == PERSIST_MAGIC && U32At(data, 4) == PERSIST_SCHEMA && U32At(data, 8) == count
    requires ParsedPool(data, 12 + 12 * count) == Some(pool)
    ensures Parsed(data) == Some(PersistedState(Entries(data, 12, count), pool))
  {
  }

  /** A blob reads back as what it was made from, whatever follows it. */
  lemma RoundTrip(s: PersistedState, tail: seq<u8>)
    requires s.Valid() && |s.reservations| <= MAX_RESERVATIONS
    ensures Parsed(Serialized(s) + tail) == Some(s)
  {
    var data := Serialized(s) + tail;
    BlobReadsBack(s, data);
    ParsedFromParts(data, |s.reservations|, s.pool);
  }

  lemma BlobReadsBack(s: PersistedState, data: seq<u8>)
    requires s.Valid() && |s.reservations| <= MAX_RESERVATIONS && Serialized(s) <= data
    ensures 12 + 12 * |s.reservations| <= |data|
    ensures U32At(data, 0) == PERSIST_MAGIC && U32At(data, 4) == PERSIST_SCHEMA
    ensures U32At(data, 8) == |s.reservations|
    ensures Entries(data, 12, |s.reservations|) == s.reservations
    ensures ParsedPool(data, 12 + 12 * |s.reservations|) == Some(s.pool)
  {
    PartsOfBlob(s, data);
    HeaderReadsBack(data, |s.reservations|);
    EntriesReadBack(data, 12, s.reservations);
    PoolReadsBack(data, 12 + 12 * |s.reservations|, s.pool);
  }

  /** The reader's bound is where the round trip ends: one reservation more and nothing comes back. */
  lemma TooManyReservationsAreRefused(s: PersistedState, tail: seq<u8>)
    requires MAX_RESERVATIONS < |s.reservations| < 0x1_0000_0000
    ensures Parsed(Serialized(s) + tail) == None
  {
    PartsOfBlob(s, Serialized(s) + tail);
    HeaderReadsBack(Serialized(s) + tail, |s.reservations|);
  }

  // ----- tails and torn writes, for any bytes at all -----

  lemma SameBytes(cut: seq<u8>, tail: seq<u8>, at: nat, n: nat)
    requires at + n <= |cut|
    ensures At(cut + tail, at, n) == At(cut, at, n)
  {
    assert (cut + tail)[at..at + n] == cut[at..at + n];
  }

  lemma {:induction false} SameEntries(cut: seq<u8>, tail: seq<u8>, at: nat, k: nat)
    requires at + 12 * k <= |cut|
    ensures Entries(cut + tail, at, k) == Entries(cut, at, k)
  {
    if k > 0 {
      SameEntries(cut, tail, at, k - 1);
      SameBytes(cut, tail, at + 12 * (k - 1), 8);
      SameBytes(cut, tail, at + 12 * k - 4, 4);
    }
  }

  lemma {:induction false} SameWords(cut: seq<u8>, tail: seq<u8>, at: nat, k: nat)
    requires at + 4 * k <= |cut|
    ensures Words(cut + tail, at, k) == Words(cut, at, k)
  {
    if k > 0 {
      SameWords(cut, tail, at, k - 1);
      SameBytes(cut, tail, at + 4 * (k - 1), 4);
    }
  }

  lemma {:induction false} SameHalves(cut: seq<u8>, tail: seq<u8>, at: nat, k: nat)
    requires at + 2 * k <= |cut|
    ensures Halves(cut + tail, at, k) == Halves(cut, at, k)
  {
    if k > 0 {
      SameHalves(cut, tail, at, k - 1);
      SameBytes(cut, tail, at + 2 * (k - 1), 2);
    }
  }

  lemma SamePool(cut: seq<u8>, tail: seq<u8>, at: nat)
    requires ParsedPool(cut, at).Some?
    ensures ParsedPool(cut + tail, at) == ParsedPool(cut, at)
    ensures |cut| >= at + if ParsedPool(cut, at).value.Some? then 100 else 4
  {
    SameBytes(cut, tail, at, 4);
    if U32At(cut, at) != 0 {
      SameWords(cut, tail, at, 9);
      SameHalves(cut, tail, at + 36, NAME_CHARS);
    }
  }

  /** What a state takes up in a blob. */
  function Size(s: PersistedState): nat { 12 + 12 * |s.reservations| + if s.pool.Some? then 100 else 4 }

  /** Bytes that parse keep parsing to the same state whatever is appended. */
  lemma TailIsIgnored(cut: seq<u8>, tail: seq<u8>)
    requires Parsed(cut).Some?
    ensures Parsed(cut + tail) == Parsed(cut)
    ensures |cut| >= Size(Parsed(cut).value)
  {
    SameBytes(cut, tail, 0, 4);
    SameBytes(cut, tail, 4, 4);
    SameBytes(cut, tail, 8, 4);
    var count := U32At(cut, 8);
    SameEntries(cut, tail, 12, count);
    SamePool(cut, tail, 12 + 12 * count);
  }

  /** A torn write is never mistaken for a smaller state. */
  lemma StrictPrefixIsRefused(s: PersistedState, k: nat)
    requires s.Valid() && |s.reservations| <= MAX_RESERVATIONS && k < |Serialized(s)|
    ensures Parsed(Serialized(s)[..k]) == None
  {
    var cut, tail := Serialized(s)[..k], Serialized(s)[k..];
    assert Serialized(s) == cut + tail;
    if Parsed(cut).Some? {
      TailIsIgnored(cut, tail);
      BlobIsWhole(s);
      assert false;
    }
  }

  lemma BlobIsWhole(s: PersistedState)
    requires s.Valid() && |s.reservations| <= MAX_RESERVATIONS
    ensures Parsed(Serialized(s)) == Some(s) && |Serialized(s)| == Size(s)
  {
    assert Serialized(s) == Serialized(s) + [];
    RoundTrip(s, []);
    SizeOfBlob(s);
  }

  lemma SizeOfBlob(s: PersistedState)
    requires s.Valid()
    ensures |Serialized(s)| == Size(s)
  {
  }

  // ----- reservations across a restart -----

  /** The reservations in the order the blob lists them. */
  ghost function ReservationList(m: map<u64, u32>): (r: seq<(u64, u32)>) {
    var keys := Ascending(m.Keys);
    seq(|keys|, i requires 0 <= i < |keys| =>
      assert keys[i] in keys; (keys[i], m[keys[i]]))
  }

  method ListReservations(m: map<u64, u32>) returns (r: seq<(u64, u32)>)
    ensures r == ReservationList(m)
  {
    var keys := AscendingKeys(m.Keys);
    assert forall i :: 0 <= i < |keys| ==> keys[i] in keys;
    r := [];
    for i := 0 to |keys|
      invariant |r| == i
      invariant forall j :: 0 <= j < i ==> r[j] == (keys[j], m[keys[j]])
    {
      r := r + [(keys[i], m[keys[i]])];
    }
  }

  ghost predicate OneToOne(m: map<u64, u32>, n: u32) {
    && (forall d :: d in m ==> m[d] < n)
    && (forall d, e :: d in m && e in m && d != e ==> m[d] != m[e])
  }

  /** What has been restored so far is part of m, and none of the keys still to come. */
  ghost predicate PartOf(r: map<u64, u32>, m: map<u64, u32>, keys: seq<u64>) {
    forall d :: d in r ==> d in m && d !in keys && r[d] == m[d]
  }

  ghost predicate Lists(entries: seq<(u64, u32)>, m: map<u64, u32>, keys: seq<u64>) {
    && |entries| == |keys|
    && forall i :: 0 <= i < |keys| ==> keys[i] in m && entries[i] == (keys[i], m[keys[i]])
  }

  lemma NextIsFree(r: map<u64, u32>, m: map<u64, u32>, n: u32, keys: seq<u64>)
    requires OneToOne(m, n) && Rising(keys) && keys != [] && keys[0] in m && PartOf(r, m, keys)
    ensures m[keys[0]] !in r.Values
    ensures PartOf(r[keys[0] := m[keys[0]]], m, keys[1..])
  {
    assert keys[0] in keys;
    assert forall x :: x in keys[1..] ==> x in keys && x > keys[0];
  }

  lemma RestoreStep(c: Connectors, m: map<u64, u32>, keys: seq<u64>, entries: seq<(u64, u32)>)
    requires OneToOne(m, c.maxConnectors) && Rising(keys) && keys != []
    requires Lists(entries, m, keys) && PartOf(c.reservations, m, keys)
    ensures keys[0] in m
    ensures var c' := Reserve(c, keys[0], m[keys[0]]);
            && Restored(c, entries) == Restored(c', entries[1..])
            && PartOf(c'.reservations, m, keys[1..])
            && c'.reservations.Keys == c.reservations.Keys + {keys[0]}
    ensures Lists(entries[1..], m, keys[1..])
  {
    NextIsFree(c.reservations, m, c.maxConnectors, keys);
    assert entries[0] == (keys[0], m[keys[0]]);
  }

  /** Every entry of the list, restored in order, finds its connector free. */
  lemma {:induction false} RestoreGivesEveryEntryBack(c: Connectors, m: map<u64, u32>, keys: seq<u64>,
                                                      entries: seq<(u64, u32)>)
    requires OneToOne(m, c.maxConnectors) && Rising(keys)
    requires Lists(entries, m, keys) && PartOf(c.reservations, m, keys)
    ensures var r := Restored(c, entries).reservations;
            PartOf(r, m, []) && forall d :: d in c.reservations || d in keys ==> d in r
    decreases |keys|
  {
    if keys != [] {
      RestoreStep(c, m, keys, entries);
      RestoreGivesEveryEntryBack(Reserve(c, keys[0], m[keys[0]]), m, keys[1..], entries[1..]);
      assert forall d :: d in keys ==> d == keys[0] || d in keys[1..];
    }
  }

  /** After a restart the driver that reads its own blob back holds the same reservations. */
  lemma RestartRebuildsReservations(c: Connectors, pool: Option<PoolConfig>)
    requires Injective(c) && c.maxConnectors <= MAX_RESERVATIONS
    requires pool.Some? ==> pool.value.Valid()
    ensures var s := PersistedState(ReservationList(c.reservations), pool);
            && Parsed(Serialized(s)) == Some(s)
            && Restored(NoConnectors(c.maxConnectors), s.reservations).reservations == c.reservations
  {
    var s := PersistedState(ReservationList(c.reservations), pool);
    ListIsShort(c, Ascending(c.reservations.Keys));
    RoundTrip(s, []);
    assert Serialized(s) + [] == Serialized(s);
    ListRestores(c);
  }

  lemma ListRestores(c: Connectors)
    requires Injective(c)
    ensures Restored(NoConnectors(c.maxConnectors), ReservationList(c.reservations)).reservations == c.reservations
  {
    var keys := Ascending(c.reservations.Keys);
    assert forall i :: 0 <= i < |keys| ==> keys[i] in keys;
    RestoreGivesEveryEntryBack(NoConnectors(c.maxConnectors), c.reservations, keys, ReservationList(c.reservations));
  }

  lemma ListIsShort(c: Connectors, keys: seq<u64>)
    requires Injective(c) && Rising(keys) && forall d :: d in keys ==> d in c.reservations
    ensures |keys| <= c.maxConnectors
  {
    var used := seq(|keys|, i requires 0 <= i < |keys| => assert keys[i] in keys; c.reservations[keys[i]]);
    assert forall i :: 0 <= i < |keys| ==> keys[i] in keys;
    DistinctBelow(used, c.maxConnectors);
  }

  lemma SomethingBelow(s: seq<u32>, n: u32)
    requires s != [] && forall i :: 0 <= i < |s| ==> s[i] < n
    ensures n > 0
  {
    assert s[0] < n;
  }

  /** Pigeonhole. */
  lemma {:induction false} DistinctBelow(s: seq<u32>, n: u32)
    requires forall i, j :: 0 <= i < j < |s| ==> s[i] != s[j]
    requires forall i :: 0 <= i < |s| ==> s[i] < n
    ensures |s| <= n
  {
    if s != [] { SomethingBelow(s, n); }
    if n > 0 {
      if i :| 0 <= i < |s| && s[i] == n - 1 {
        DistinctBelow(s[..i] + s[i + 1..], n - 1);
      } else {
        DistinctBelow(s, n - 1);
      }
    }
  }
}
