/**
 The EDID of a created monitor: a base block and a CTA-861 extension, printed byte by byte.

 The friendly name comes in as Unicode scalar values, already decoded and not empty, and the three
 luminance code bytes of the HDR block as they are.
 */
module Edid {
  import opened Prelude
  import opened Modes

  const HBLANK: nat := 160
  const VBLANK: nat := 45
  const HSYNC_OFFSET: nat := 48
  const HSYNC_WIDTH: nat := 32
  const VSYNC_OFFSET: nat := 3
  const VSYNC_WIDTH: nat := 5

  const DTD_MAX_ACTIVE: nat := 4095
  const DTD_MAX_CLOCK_10KHZ: nat := 65_535
  const MIN_STAND_IN_MILLIHZ: nat := 23_000

  const DEFAULT_PHYSICAL_WIDTH_MM: nat := 600
  const DEFAULT_PHYSICAL_HEIGHT_MM: nat := 340
  const MAX_PHYSICAL_SIZE_MM: nat := 2550

  const TEXT_CHARS: nat := 13

  type Bytes = seq<u8>

  // ----- the timing -----

  /** The pixel rate under the fixed blanking, in millihertz. */
  function PixelRate(width: nat, height: nat, refreshMillihz: nat): nat {
    (width + HBLANK) * (height + VBLANK) * refreshMillihz
  }

  function Clock10khz(width: nat, height: nat, refreshMillihz: nat): nat {
    (PixelRate(width, height, refreshMillihz) + 5_000_000) / 10_000_000
  }

  predicate DtdFits(width: nat, height: nat, refreshMillihz: nat) {
    && width <= DTD_MAX_ACTIVE && height <= DTD_MAX_ACTIVE
    && Clock10khz(width, height, refreshMillihz) <= DTD_MAX_CLOCK_10KHZ
  }

  /** The clock is the rate rounded to 10 kHz: off by 5 kHz at most. */
  lemma ClockError(width: nat, height: nat, refreshMillihz: nat)
    ensures var rate, clock := PixelRate(width, height, refreshMillihz), Clock10khz(width, height, refreshMillihz);
            clock * 10_000_000 <= rate + 5_000_000 && rate < clock * 10_000_000 + 5_000_000
  {
  }

  lemma ProductGrows(a: nat, b: nat, c: nat)
    requires a <= b
    ensures a * c <= b * c
  {
    assert b * c == a * c + (b - a) * c;
  }

  lemma RateIsMonotone(w: nat, w': nat, h: nat, h': nat, r: nat, r': nat)
    requires w <= w' && h <= h' && r <= r'
    ensures PixelRate(w, h, r) <= PixelRate(w', h', r')
  {
    ProductGrows(w + HBLANK, w' + HBLANK, h + VBLANK);
    ProductGrows(h + VBLANK, h' + VBLANK, w' + HBLANK);
    ProductGrows((w + HBLANK) * (h + VBLANK), (w' + HBLANK) * (h' + VBLANK), r);
    ProductGrows(r, r', (w' + HBLANK) * (h' + VBLANK));
  }

  /** No validated mode overflows the 64-bit product. */
  lemma ClockDoesNotOverflow(s: ModeSpec)
    requires InEnvelope(s)
    ensures PixelRate(s.width, s.height, s.refreshMillihz) + 5_000_000 <= U64_MAX
  {
    RateIsMonotone(s.width, MAX_WIDTH, s.height, MAX_HEIGHT, s.refreshMillihz, U32_MAX);
  }

  datatype DtdTiming = Exact | StandIn(width: nat, height: nat, refreshMillihz: nat)

  /** The first of hz, hz / 2, hz / 4, ... that fits, while the rate is at least 23 Hz. */
  function FirstFitting(width: nat, height: nat, hz: nat): Option<nat> {
    if hz < MIN_STAND_IN_MILLIHZ then None
    else if DtdFits(width, height, hz) then Some(hz)
    else FirstFitting(width, height, hz / 2)
  }

  /** The exact mode if a detailed timing can hold it; else the same resolution at the first halved rate
      that fits, if the resolution fits at all; else 4K at 60 Hz. */
  function Chosen(mode: Mode): DtdTiming {
    if DtdFits(mode.width, mode.height, mode.refreshMillihz) then Exact
    else if mode.width > DTD_MAX_ACTIVE || mode.height > DTD_MAX_ACTIVE then StandIn(3840, 2160, 60_000)
    else
      match FirstFitting(mode.width, mode.height, mode.refreshMillihz / 2)
      case Some(hz) => StandIn(mode.width, mode.height, hz)
      case None => StandIn(3840, 2160, 60_000)
  }

  method ChooseDtd(mode: Mode) returns (r: DtdTiming)
    ensures r == Chosen(mode)
  {
    if DtdFits(mode.width, mode.height, mode.refreshMillihz) { return Exact; }
    var hz: nat := mode.refreshMillihz / 2;
    while hz >= MIN_STAND_IN_MILLIHZ && mode.width <= DTD_MAX_ACTIVE && mode.height <= DTD_MAX_ACTIVE
      invariant mode.width <= DTD_MAX_ACTIVE && mode.height <= DTD_MAX_ACTIVE ==>
                  FirstFitting(mode.width, mode.height, hz) ==
                  FirstFitting(mode.width, mode.height, mode.refreshMillihz / 2)
    {
      if DtdFits(mode.width, mode.height, hz) { return StandIn(mode.width, mode.height, hz); }
      hz := hz / 2;
    }
    return StandIn(3840, 2160, 60_000);
  }

  function Timed(mode: Mode): (nat, nat, nat) {
    match Chosen(mode)
    case Exact => (mode.width, mode.height, mode.refreshMillihz)
    case StandIn(w, h, hz) => (w, h, hz)
  }

  lemma {:induction false} FirstFittingFits(width: nat, height: nat, hz: nat)
    ensures var r := FirstFitting(width, height, hz);
            r.Some? ==> MIN_STAND_IN_MILLIHZ <= r.value <= hz && DtdFits(width, height, r.value)
    decreases hz
  {
    if hz >= MIN_STAND_IN_MILLIHZ && !DtdFits(width, height, hz) { FirstFittingFits(width, height, hz / 2); }
  }

  /** Whatever the mode, the timing that goes into the descriptor fits it. */
  lemma ChosenFits(mode: Mode)
    ensures var (w, h, hz) := Timed(mode); DtdFits(w, h, hz)
    ensures Chosen(mode).Exact? <==> DtdFits(mode.width, mode.height, mode.refreshMillihz)
    ensures Chosen(mode).StandIn? ==> Chosen(mode).refreshMillihz >= MIN_STAND_IN_MILLIHZ
  {
    FirstFittingFits(mode.width, mode.height, mode.refreshMillihz / 2);
  }

  // ----- which stand-in -----

  function Power2(k: nat): (p: nat)
    ensures p > 0
  {
    if k == 0 then 1 else 2 * Power2(k - 1)
  }

  /** The k-th halving of the rate can stand in: still 23 Hz, and the same resolution fits. */
  predicate StandsIn(width: nat, height: nat, hz: nat, k: nat) {
    hz / Power2(k) >= MIN_STAND_IN_MILLIHZ && DtdFits(width, height, hz / Power2(k))
  }

  lemma RemainderIsSmall(n: nat, d: nat)
    requires d > 0
    ensures n / d * d <= n < n / d * d + d
  {
  }

  lemma QuotientIs(n: nat, d: nat, q: nat)
    requires d > 0 && q * d <= n < q * d + d
    ensures n / d == q
  {
    var r := n / d;
    RemainderIsSmall(n, d);
    if r < q { ProductGrows(r + 1, q, d); }
    if q < r { ProductGrows(q + 1, r, d); }
  }

  /** Halving once more. */
  lemma HalvedAgain(n: nat, k: nat)
    ensures n / 2 / Power2(k) == n / Power2(k + 1)
  {
    var p, q := Power2(k), n / 2 / Power2(k);
    RemainderIsSmall(n / 2, p);
    assert q * (2 * p) == 2 * (q * p);
    QuotientIs(n, 2 * p, q);
  }

  lemma HalvingFalls(n: nat, k: nat)
    ensures n / Power2(k) <= n
  {
    NoMoreThanWhole(n, Power2(k));
  }

  lemma NoMoreThanWhole(n: nat, d: nat)
    requires d > 0
    ensures n / d <= n
  {
    var q := n / d;
    RemainderIsSmall(n, d);
    ProductGrows(1, d, q);
  }

  /** The search finds the first halving that can stand in, if any can. */
  lemma {:induction false} FirstFittingIsFirst(width: nat, height: nat, hz: nat) returns (k: nat)
    ensures FirstFitting(width, height, hz).Some? ==>
              && StandsIn(width, height, hz, k) && FirstFitting(width, height, hz) == Some(hz / Power2(k))
              && forall j :: 0 <= j < k ==> !StandsIn(width, height, hz, j)
    ensures FirstFitting(width, height, hz).None? ==> forall j: nat :: !StandsIn(width, height, hz, j)
    decreases hz
  {
    k := 0;
    if hz < MIN_STAND_IN_MILLIHZ {
      forall j: nat ensures !StandsIn(width, height, hz, j) { HalvingFalls(hz, j); }
    } else if !DtdFits(width, height, hz) {
      var i := FirstFittingIsFirst(width, height, hz / 2);
      k := i + 1;
      assert !StandsIn(width, height, hz, 0);
      forall j: nat | j > 0 ensures StandsIn(width, height, hz, j) <==> StandsIn(width, height, hz / 2, j - 1) {
        HalvedAgain(hz, j - 1);
      }
      HalvedAgain(hz, i);
    }
  }

  /**
   What stands in for a mode no detailed timing can hold: the same resolution at the first halved rate of at
   least 23 Hz that fits, when the resolution fits and there is one; else 4K at 60 Hz.
   */
  lemma StandInIsTheNearest(mode: Mode)
    requires !DtdFits(mode.width, mode.height, mode.refreshMillihz)
    ensures var w, h, hz := mode.width, mode.height, mode.refreshMillihz;
            if w <= DTD_MAX_ACTIVE && h <= DTD_MAX_ACTIVE && exists k: nat :: k >= 1 && StandsIn(w, h, hz, k)
            then exists k: nat ::
                   k >= 1 && StandsIn(w, h, hz, k) && (forall j :: 1 <= j < k ==> !StandsIn(w, h, hz, j))
                   && Timed(mode) == (w, h, hz / Power2(k))
            else Timed(mode) == (3840, 2160, 60_000)
  {
    var w, h, hz := mode.width, mode.height, mode.refreshMillihz;
    var i := FirstFittingIsFirst(w, h, hz / 2);
    forall j: nat | j > 0 ensures StandsIn(w, h, hz, j) <==> StandsIn(w, h, hz / 2, j - 1) { HalvedAgain(hz, j - 1); }
    HalvedAgain(hz, i);
    if FirstFitting(w, h, hz / 2).Some? { assert StandsIn(w, h, hz, i + 1); }
  }

  // ----- the detailed timing descriptor -----

  function Lo(x: nat): u8 { (x % 0x100) as u8 }

  function Hi(x: nat): u8 { (x / 0x100 % 0x100) as u8 }

  /** The high nibbles of two 12-bit values in one byte. */
  function Nibbles(x: nat, y: nat): u8 { (x / 0x100 % 0x10 * 0x10 + y / 0x100 % 0x10) as u8 }

  function DtdBytes(width: nat, height: nat, refreshMillihz: nat, physW: nat, physH: nat): (r: Bytes)
    ensures |r| == 18
  {
    var clock := Clock10khz(width, height, refreshMillihz);
    [Lo(clock), Hi(clock),
     Lo(width), Lo(HBLANK), Nibbles(width, HBLANK),
     Lo(height), Lo(VBLANK), Nibbles(height, VBLANK),
     Lo(HSYNC_OFFSET), Lo(HSYNC_WIDTH), (VSYNC_OFFSET * 0x10 + VSYNC_WIDTH) as u8, 0,
     Lo(physW), Lo(physH), Nibbles(physW, physH),
     0, 0, 0x1E]
  }

  method WriteDtd(e: array<u8>, at: nat, width: nat, height: nat, refreshMillihz: nat, physW: nat, physH: nat)
    requires at + 18 <= e.Length
    modifies e
    ensures e[at..at + 18] == DtdBytes(width, height, refreshMillihz, physW, physH)
    ensures forall i :: 0 <= i < at || at + 18 <= i < e.Length ==> e[i] == old(e[i])
  {
    var clock := Clock10khz(width, height, refreshMillihz);
    e[at + 0] := Lo(clock);
    e[at + 1] := Hi(clock);
    e[at + 2] := Lo(width);
    e[at + 3] := Lo(HBLANK);
    e[at + 4] := Nibbles(width, HBLANK);
    e[at + 5] := Lo(height);
    e[at + 6] := Lo(VBLANK);
    e[at + 7] := Nibbles(height, VBLANK);
    ghost var active := e[at..at + 8];
    WriteSyncAndSize(e, at + 8, physW, physH);
    assert e[at..at + 8] == active;
    assert e[at..at + 18] == e[at..at + 8] + e[at + 8..at + 18];
  }

  method WriteSyncAndSize(e: array<u8>, at: nat, physW: nat, physH: nat)
    requires at + 10 <= e.Length
    modifies e
    ensures e[at..at + 10] ==
            [Lo(HSYNC_OFFSET), Lo(HSYNC_WIDTH), (VSYNC_OFFSET * 0x10 + VSYNC_WIDTH) as u8, 0,
             Lo(physW), Lo(physH), Nibbles(physW, physH), 0, 0, 0x1E]
    ensures forall i :: 0 <= i < at || at + 10 <= i < e.Length ==> e[i] == old(e[i])
  {
    e[at + 0] := Lo(HSYNC_OFFSET);
    e[at + 1] := Lo(HSYNC_WIDTH);
    e[at + 2] := (VSYNC_OFFSET * 0x10 + VSYNC_WIDTH) as u8;
    e[at + 3] := 0; // offsets and widths fit their low parts
    e[at + 4] := Lo(physW);
    e[at + 5] := Lo(physH);
    e[at + 6] := Nibbles(physW, physH);
    e[at + 7] := 0;
    e[at + 8] := 0;
    e[at + 9] := 0x1E; // progressive scan, separate sync lines
  }

  /** A detailed timing as section 3.10.2 of VESA E-EDID Release A Rev 2 lays it out. */
  datatype Timing = Timing(
    clock10khz: nat, width: nat, hblank: nat, height: nat, vblank: nat,
    hsyncOffset: nat, hsyncWidth: nat, vsyncOffset: nat, vsyncWidth: nat,
    widthMm: nat, heightMm: nat, hborder: nat, vborder: nat, flags: nat)

  function Byte(b: Bytes, i: nat): nat
    requires i < |b|
  {
    b[i] as nat
  }

  /** Reading a descriptor by that layout; a clock of zero marks a display descriptor instead. */
  function DecodeDtd(b: Bytes): Option<Timing>
    requires |b| == 18
  {
    var clock := Byte(b, 0) + 0x100 * Byte(b, 1);
    if clock == 0 then None
    else Some(Timing(
      clock,
      Byte(b, 2) + Byte(b, 4) / 0x10 * 0x100, Byte(b, 3) + Byte(b, 4) % 0x10 * 0x100,
      Byte(b, 5) + Byte(b, 7) / 0x10 * 0x100, Byte(b, 6) + Byte(b, 7) % 0x10 * 0x100,
      Byte(b, 8) + Byte(b, 11) / 0x40 * 0x100, Byte(b, 9) + Byte(b, 11) / 0x10 % 4 * 0x100,
      Byte(b, 10) / 0x10 + Byte(b, 11) / 4 % 4 * 0x10, Byte(b, 10) % 0x10 + Byte(b, 11) % 4 * 0x10,
      Byte(b, 12) + Byte(b, 14) / 0x10 * 0x100, Byte(b, 13) + Byte(b, 14) % 0x10 * 0x100,
      Byte(b, 15), Byte(b, 16), Byte(b, 17)))
  }

  lemma TwelveBits(x: nat, y: nat)
    requires x < 0x1000 && y < 0x1000
    ensures Lo(x) as nat + Nibbles(x, y) as nat / 0x10 * 0x100 == x
    ensures Lo(y) as nat + Nibbles(x, y) as nat % 0x10 * 0x100 == y
  {
  }

  lemma SixteenBits(x: nat)
    requires x < 0x1_0000
    ensures Lo(x) as nat + 0x100 * Hi(x) as nat == x
  {
  }

  /**
   The printed descriptor reads back as the timing it was given, as long as that fits; it reads as a
   display descriptor exactly when the pixel rate rounds to a clock of zero, which is below 5 kHz.
   */
  lemma DtdDecodes(width: nat, height: nat, refreshMillihz: nat, physW: nat, physH: nat)
    requires DtdFits(width, height, refreshMillihz) && physW < 0x1000 && physH < 0x1000
    ensures var clock := Clock10khz(width, height, refreshMillihz);
            var r := DecodeDtd(DtdBytes(width, height, refreshMillihz, physW, physH));
            && (r.None? <==> PixelRate(width, height, refreshMillihz) < 5_000_000)
            && (r.Some? ==>
                  r.value == Timing(clock, width, HBLANK, height, VBLANK, HSYNC_OFFSET, HSYNC_WIDTH,
                                    VSYNC_OFFSET, VSYNC_WIDTH, physW, physH, 0, 0, 0x1E))
  {
    SixteenBits(Clock10khz(width, height, refreshMillihz));
    TwelveBits(width, HBLANK);
    TwelveBits(height, VBLANK);
    TwelveBits(physW, physH);
  }

  // ----- text descriptors -----

  /** Printable ASCII stays; everything else becomes a question mark. */
  function Printed(ch: nat): u8 { if 0x20 <= ch <= 0x7E then ch as u8 else 0x3F }

  function PrintedText(text: seq<nat>): (r: Bytes)
    ensures |r| == if |text| < TEXT_CHARS then |text| else TEXT_CHARS
    ensures forall i :: 0 <= i < |r| ==> r[i] == Printed(text[i])
  {
    seq(if |text| < TEXT_CHARS then |text| else TEXT_CHARS, i requires 0 <= i < |text| => Printed(text[i]))
  }

  function Fill(n: nat, b: u8): (r: Bytes)
    ensures |r| == n && forall i :: 0 <= i < n ==> r[i] == b
  {
    seq(n, i => b)
  }

  /** Terminated by a line feed and padded with spaces, unless it fills the field. */
  function TextField(text: seq<nat>): (r: Bytes)
    ensures |r| == TEXT_CHARS
  {
    var shown := PrintedText(text);
    if |shown| == TEXT_CHARS then shown
    else shown + [0x0A] + Fill(TEXT_CHARS - 1 - |shown|, 0x20)
  }

  function TextBytes(tag: u8, text: seq<nat>): (r: Bytes)
    ensures |r| == 18
  {
    [0, 0, 0, tag, 0] + TextField(text)
  }

  method WriteTextDescriptor(e: array<u8>, at: nat, tag: u8, text: seq<nat>)
    requires at + 18 <= e.Length
    modifies e
    ensures e[..at + 18] == old(e[..at]) + TextBytes(tag, text)
    ensures forall i :: at + 18 <= i < e.Length ==> e[i] == old(e[i])
  {
    WriteTag(e, at, tag);
    var n := WriteShown(e, at + 5, text);
    if n < TEXT_CHARS {
      e[at + 5 + n] := 0x0A;
      assert e[..at + 5 + n + 1] == e[..at + 5 + n] + [0x0A];
      WritePadding(e, at + 5 + n + 1, TEXT_CHARS - 1 - n);
    }
    LeftToRight(old(e[..at]), [0, 0, 0, tag, 0], PrintedText(text), [0x0A],
                Fill(if n < TEXT_CHARS then TEXT_CHARS - 1 - n else 0, 0x20));
  }

  lemma LeftToRight(a: Bytes, b: Bytes, c: Bytes, d: Bytes, f: Bytes)
    ensures a + b + c + d + f == a + (b + (c + d + f))
    ensures a + b + c == a + (b + c)
  {
  }

  method WriteTag(e: array<u8>, at: nat, tag: u8)
    requires at + 5 <= e.Length
    modifies e
    ensures e[..at + 5] == old(e[..at]) + [0, 0, 0, tag, 0]
    ensures forall i :: at + 5 <= i < e.Length ==> e[i] == old(e[i])
  {
    e[at + 0] := 0;
    e[at + 1] := 0;
    e[at + 2] := 0;
    e[at + 3] := tag;
    e[at + 4] := 0;
  }

  method WriteShown(e: array<u8>, at: nat, text: seq<nat>) returns (n: nat)
    requires at + TEXT_CHARS <= e.Length
    modifies e
    ensures n == |PrintedText(text)|
    ensures e[..at + n] == old(e[..at]) + PrintedText(text)
    ensures forall i :: at + n <= i < e.Length ==> e[i] == old(e[i])
  {
    n := 0;
    while n < |text| && n < TEXT_CHARS
      invariant n <= |PrintedText(text)|
      invariant e[..at + n] == old(e[..at]) + PrintedText(text)[..n]
      invariant forall i :: at + n <= i < e.Length ==> e[i] == old(e[i])
    {
      e[at + n] := Printed(text[n]);
      assert e[..at + n + 1] == e[..at + n] + [Printed(text[n])];
      n := n + 1;
    }
    assert PrintedText(text)[..n] == PrintedText(text);
  }

  method WritePadding(e: array<u8>, at: nat, n: nat)
    requires at + n <= e.Length
    modifies e
    ensures e[..at + n] == old(e[..at]) + Fill(n, 0x20)
    ensures forall i :: at + n <= i < e.Length ==> e[i] == old(e[i])
  {
    for i := 0 to n
      invariant e[..at + i] == old(e[..at]) + Fill(i, 0x20)
      invariant forall j :: at + i <= j < e.Length ==> e[j] == old(e[j])
    {
      e[at + i] := 0x20;
      assert e[..at + i + 1] == e[..at + i] + [0x20];
    }
  }

  /** The text of a field: up to the line feed, or all of it. */
  function ReadText(field: Bytes): Bytes {
    if field == [] || field[0] == 0x0A then [] else [field[0]] + ReadText(field[1..])
  }

  lemma {:induction false} ReadTextStops(shown: Bytes, rest: Bytes)
    requires (forall i :: 0 <= i < |shown| ==> shown[i] != 0x0A) && (rest == [] || rest[0] == 0x0A)
    ensures ReadText(shown + rest) == shown
    decreases |shown|
  {
    if shown == [] {
      assert shown + rest == rest;
    } else {
      assert (shown + rest)[1..] == shown[1..] + rest;
      ReadTextStops(shown[1..], rest);
    }
  }

  /** What a reader of the descriptor sees is the text, unprintables replaced, cut at 13 characters. */
  lemma TextReadsBack(tag: u8, text: seq<nat>)
    ensures ReadText(TextBytes(tag, text)[5..]) == PrintedText(text)
    ensures TextBytes(tag, text)[3] == tag
  {
    var shown := PrintedText(text);
    assert TextBytes(tag, text)[5..] == TextField(text);
    if |shown| == TEXT_CHARS {
      ReadTextStops(shown, []);
      assert shown + [] == shown;
    } else {
      var rest := [0x0A] + Fill(TEXT_CHARS - 1 - |shown|, 0x20);
      ReadTextStops(shown, rest);
      assert TextField(text) == shown + rest;
    }
  }

  // ----- checksums -----

  function ByteSum(b: Bytes): nat {
    if b == [] then 0 else ByteSum(b[..|b| - 1]) + b[|b| - 1] as nat
  }

  function CheckByte(b: Bytes): u8 { ((0x100 - ByteSum(b) % 0x100) % 0x100) as u8 }

  function Sealed(b: Bytes): Bytes { b + [CheckByte(b)] }

  /** A sealed block sums to 0 modulo 256, as section 3.11 of VESA E-EDID Release A Rev 2 requires. */
  lemma SealedSumsToZero(b: Bytes)
    ensures ByteSum(Sealed(b)) % 0x100 == 0
  {
    assert Sealed(b)[..|Sealed(b)| - 1] == b;
  }

  method Checksum(e: array<u8>, from: nat)
    requires from + 128 <= e.Length
    modifies e
    ensures e[..from + 128] == old(e[..from]) + Sealed(old(e[from..from + 127]))
    ensures forall i :: from + 128 <= i < e.Length ==> e[i] == old(e[i])
  {
    var sum := 0;
    for i := 0 to 127
      invariant sum == ByteSum(e[from..from + i])
    {
      assert e[from..from + i + 1][..i] == e[from..from + i];
      sum := sum + e[from + i] as nat;
    }
    e[from + 127] := ((0x100 - sum % 0x100) % 0x100) as u8;
    assert e[from..from + 127] == old(e[from..from + 127]);
  }

  // ----- the whole EDID -----

  /** The three luminance codes of the HDR block. */
  datatype Luminance = Luminance(max: u8, maxFall: u8, min: u8)

  datatype EdidParams = EdidParams(
    mode: Mode, name: seq<nat>, serial: u32, productCode: u16,
    physicalWidthMm: u32, physicalHeightMm: u32, luminance: Luminance)
  {
    function PhysW(): nat { Physical(physicalWidthMm, DEFAULT_PHYSICAL_WIDTH_MM) }

    function PhysH(): nat { Physical(physicalHeightMm, DEFAULT_PHYSICAL_HEIGHT_MM) }
  }

  function Physical(mm: nat, default: nat): nat {
    var chosen := if mm == 0 then default else mm;
    if chosen > MAX_PHYSICAL_SIZE_MM then MAX_PHYSICAL_SIZE_MM else chosen
  }

  function DepthByte(depth: BitDepth): u8 {
    match depth
    case Sdr8 => 0xA5
    case Sdr10 => 0xB5
    case Hdr10 => 0xB5
    case Hdr12 => 0xC5
  }

  function SerialBytes(serial: u32): (r: Bytes)
    ensures |r| == 4
  {
    [Lo(serial), Hi(serial), Lo(serial / 0x1_0000), Hi(serial / 0x1_0000)]
  }

  function HexDigit(d: nat): nat
    requires d < 16
  {
    if d < 10 then 0x30 + d else 0x41 + d - 10
  }

  /** n digits, the most significant first. */
  function Hex(x: nat, n: nat): (r: seq<nat>)
    ensures |r| == n
  {
    if n == 0 then [] else Hex(x / 16, n - 1) + [HexDigit(x % 16)]
  }

  /** LVGD followed by the serial in eight digits. */
  function SerialText(serial: u32): seq<nat> { [0x4C, 0x56, 0x47, 0x44] + Hex(serial, 8) }

  /** Header, vendor, product and serial, version, basic parameters, chromaticity, unused timings. */
  function HeadBytes(p: EdidParams): (r: Bytes)
    ensures |r| == 54
  {
    [0x00, 0xFF, 0xFF, 0xFF, 0xFF, 0xFF, 0xFF, 0x00]
    + [0x38, 0x46, Lo(p.productCode), Hi(p.productCode)]
    + SerialBytes(p.serial)
    + [0, 36, 1, 4, DepthByte(p.mode.bitDepth), (p.PhysW() / 10) as u8, (p.PhysH() / 10) as u8, 120, 0x02]
    + [0xEE, 0x91, 0xA3, 0x54, 0x4C, 0x99, 0x26, 0x0F, 0x50, 0x54]
    + Fill(3, 0) + Fill(16, 0x01)
  }

  function DummyBytes(): (r: Bytes)
    ensures |r| == 18
  {
    [0, 0, 0, 0x10] + Fill(14, 0)
  }

  function TimingBytes(p: EdidParams): (r: Bytes)
    ensures |r| == 18
  {
    var (w, h, hz) := Timed(p.mode);
    DtdBytes(w, h, hz, p.PhysW(), p.PhysH())
  }

  function BaseBytes(p: EdidParams): (r: Bytes)
    ensures |r| == 127
  {
    HeadBytes(p) + TimingBytes(p) + TextBytes(0xFC, p.name) + TextBytes(0xFF, SerialText(p.serial)) + DummyBytes() + [1]
  }

  /** Colorimetry and HDR static metadata, for an HDR monitor. */
  function CtaBlocks(p: EdidParams): (r: Bytes)
    ensures |r| == if p.mode.hdr then 11 else 0
  {
    if p.mode.hdr then
      [0xE3, 0x05, 0xC0, 0x00]
      + [0xE6, 0x06, 0x05, 0x01, p.luminance.max, p.luminance.maxFall, p.luminance.min]
    else []
  }

  function CtaBytes(p: EdidParams): (r: Bytes)
    ensures |r| == 127
  {
    [0x02, 0x03, (4 + |CtaBlocks(p)|) as u8, 0x00] + CtaBlocks(p) + Fill(123 - |CtaBlocks(p)|, 0)
  }

  function Generated(p: EdidParams): (r: Bytes)
    ensures |r| == 256
  {
    Sealed(BaseBytes(p)) + Sealed(CtaBytes(p))
  }

  /** Copies a run of bytes into place. */
  method Put(e: array<u8>, at: nat, bytes: Bytes)
    requires at + |bytes| <= e.Length
    modifies e
    ensures e[..at + |bytes|] == old(e[..at]) + bytes
    ensures forall i :: at + |bytes| <= i < e.Length ==> e[i] == old(e[i])
  {
    for i := 0 to |bytes|
      invariant e[..at + i] == old(e[..at]) + bytes[..i]
      invariant forall j :: at + i <= j < e.Length ==> e[j] == old(e[j])
    {
      e[at + i] := bytes[i];
      assert e[..at + i + 1] == e[..at + i] + [bytes[i]];
    }
    assert bytes[..|bytes|] == bytes;
  }

  /** From `at` on nothing has been written yet. */
  ghost predicate BlankFrom(e: array<u8>, at: nat)
    reads e
  {
    forall i :: at <= i < e.Length ==> e[i] == 0
  }

  method WriteHead(e: array<u8>, p: EdidParams)
    requires e.Length == 256 && BlankFrom(e, 0)
    modifies e
    ensures e[..54] == HeadBytes(p) && BlankFrom(e, 54)
  {
    Put(e, 0, [0x00, 0xFF, 0xFF, 0xFF, 0xFF, 0xFF, 0xFF, 0x00]);
    Put(e, 8, [0x38, 0x46, Lo(p.productCode), Hi(p.productCode)]);
    Put(e, 12, SerialBytes(p.serial));
    Put(e, 16, [0, 36, 1, 4, DepthByte(p.mode.bitDepth), (p.PhysW() / 10) as u8, (p.PhysH() / 10) as u8, 120, 0x02]);
    Put(e, 25, [0xEE, 0x91, 0xA3, 0x54, 0x4C, 0x99, 0x26, 0x0F, 0x50, 0x54]);
    assert e[..38] == e[..35] + Fill(3, 0);
    Put(e, 38, Fill(16, 0x01));
  }

  method WriteTiming(e: array<u8>, p: EdidParams)
    requires e.Length == 256 && BlankFrom(e, 54)
    modifies e
    ensures e[..72] == old(e[..54]) + TimingBytes(p) && BlankFrom(e, 72)
  {
    var chosen := ChooseDtd(p.mode);
    var (w, h, hz) := match chosen
      case Exact => (p.mode.width as nat, p.mode.height as nat, p.mode.refreshMillihz as nat)
      case StandIn(w', h', hz') => (w', h', hz');
    WriteDtd(e, 54, w, h, hz, p.PhysW(), p.PhysH());
    assert e[..72] == e[..54] + e[54..72] && e[..54] == old(e[..54]);
  }

  method WriteDescriptors(e: array<u8>, p: EdidParams)
    requires e.Length == 256 && BlankFrom(e, 72)
    modifies e
    ensures e[..127] ==
            old(e[..72]) + TextBytes(0xFC, p.name) + TextBytes(0xFF, SerialText(p.serial)) + DummyBytes() + [1]
    ensures BlankFrom(e, 127)
  {
    WriteTextDescriptor(e, 72, 0xFC, p.name);
    WriteTextDescriptor(e, 90, 0xFF, SerialText(p.serial));
    Put(e, 108, DummyBytes());
    e[126] := 1;
    assert e[..127] == e[..126] + [1];
  }

  method WriteBase(e: array<u8>, p: EdidParams)
    requires e.Length == 256 && BlankFrom(e, 0)
    modifies e
    ensures e[..128] == Sealed(BaseBytes(p)) && BlankFrom(e, 128)
  {
    WriteHead(e, p);
    WriteTiming(e, p);
    WriteDescriptors(e, p);
    Checksum(e, 0);
  }

  method WriteCta(e: array<u8>, p: EdidParams)
    requires e.Length == 256 && BlankFrom(e, 128)
    modifies e
    ensures e[..] == old(e[..128]) + Sealed(CtaBytes(p))
  {
    var i := 4 + if p.mode.hdr then 11 else 0;
    Put(e, 128, [0x02, 0x03, i as u8, 0x00]);
    if p.mode.hdr {
      Put(e, 132, [0xE3, 0x05, 0xC0, 0x00]);
      Put(e, 136, [0xE6, 0x06, 0x05, 0x01, p.luminance.max, p.luminance.maxFall, p.luminance.min]);
    }
    assert e[128..128 + i] == [0x02, 0x03, i as u8, 0x00] + CtaBlocks(p);
    assert e[128 + i..255] == Fill(127 - i, 0);
    assert e[128..255] == e[128..128 + i] + e[128 + i..255];
    ghost var base := e[..128];
    assert e[128..255] == CtaBytes(p) && base == old(e[..128]);
    Checksum(e, 128);
    assert e[..] == e[..256] == base + Sealed(CtaBytes(p));
  }

  method Generate(p: EdidParams) returns (e: array<u8>)
    ensures fresh(e) && e[..] == Generated(p)
  {
    e := new u8[256](i => 0);
    WriteBase(e, p);
    WriteCta(e, p);
  }
}
