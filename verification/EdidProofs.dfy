/** What a reader of a generated EDID finds in it. */
module EdidProofs {
  import opened Prelude
  import opened Modes
  import opened Edid

  lemma Blocks(p: EdidParams)
    ensures Generated(p)[..128] == Sealed(BaseBytes(p)) && Generated(p)[128..] == Sealed(CtaBytes(p))
  {
  }

  /** Both 128-byte blocks sum to 0 modulo 256. */
  lemma BothBlocksSumToZero(p: EdidParams)
    ensures ByteSum(Generated(p)[..128]) % 0x100 == 0
    ensures ByteSum(Generated(p)[128..]) % 0x100 == 0
  {
    Blocks(p);
    SealedSumsToZero(BaseBytes(p));
    SealedSumsToZero(CtaBytes(p));
  }

  lemma SliceOfPrefix(a: Bytes, b: Bytes, i: nat, j: nat)
    requires a <= b && i <= j <= |a|
    ensures b[i..j] == a[i..j]
  {
    assert b[..|a|] == a;
  }

  lemma BasePrefix(p: EdidParams)
    ensures HeadBytes(p) <= Generated(p)
    ensures Generated(p)[54..72] == TimingBytes(p)
    ensures Generated(p)[72..90] == TextBytes(0xFC, p.name)
    ensures Generated(p)[90..108] == TextBytes(0xFF, SerialText(p.serial))
    ensures Generated(p)[126] == 1
  {
    Blocks(p);
    BaseParts(HeadBytes(p), TimingBytes(p), TextBytes(0xFC, p.name), TextBytes(0xFF, SerialText(p.serial)), DummyBytes());
    assert BaseBytes(p) <= Generated(p);
    SliceOfPrefix(BaseBytes(p), Generated(p), 54, 72);
    SliceOfPrefix(BaseBytes(p), Generated(p), 72, 90);
    SliceOfPrefix(BaseBytes(p), Generated(p), 90, 108);
    SliceOfPrefix(BaseBytes(p), Generated(p), 0, 54);
    assert Generated(p)[0..54] == HeadBytes(p);
  }

  lemma BaseParts(head: Bytes, timing: Bytes, name: Bytes, serial: Bytes, dummy: Bytes)
    requires |head| == 54 && |timing| == |name| == |serial| == |dummy| == 18
    ensures var b := head + timing + name + serial + dummy + [1];
            b[0..54] == head && b[54..72] == timing && b[72..90] == name && b[90..108] == serial && b[126] == 1
  {
  }

  // ----- the header -----

  /** A letter of the manufacturer code: five bits, A is 1. */
  function Letter(code: nat): nat { 0x40 + code % 0x20 }

  /** Bits 6 to 4 of the video input byte (section 3.6.1 of VESA E-EDID Release A Rev 2). */
  function BitsPerColour(input: u8): nat {
    match input as nat / 0x10 % 8
    case 1 => 6
    case 2 => 8
    case 3 => 10
    case 4 => 12
    case 5 => 14
    case 6 => 16
    case _ => 0
  }

  function DepthBits(depth: BitDepth): nat {
    match depth
    case Sdr8 => 8
    case Sdr10 => 10
    case Hdr10 => 10
    case Hdr12 => 12
  }

  /** The size printed is the one asked for, 600 by 340 when none is, and 2550 mm at most. */
  lemma PhysicalSize(p: EdidParams)
    ensures p.physicalWidthMm == 0 ==> p.PhysW() == 600
    ensures p.physicalHeightMm == 0 ==> p.PhysH() == 340
    ensures 0 < p.physicalWidthMm <= 2550 ==> p.PhysW() == p.physicalWidthMm
    ensures 0 < p.physicalHeightMm <= 2550 ==> p.PhysH() == p.physicalHeightMm
    ensures p.physicalWidthMm > 2550 ==> p.PhysW() == 2550
    ensures p.physicalHeightMm > 2550 ==> p.PhysH() == 2550
  {
  }

  lemma HeadIs(p: EdidParams)
    ensures HeadBytes(p)[..8] == [0x00, 0xFF, 0xFF, 0xFF, 0xFF, 0xFF, 0xFF, 0x00]
    ensures HeadBytes(p)[8] == 0x38 && HeadBytes(p)[9] == 0x46
    ensures HeadBytes(p)[16..25] ==
            [0, 36, 1, 4, DepthByte(p.mode.bitDepth), (p.PhysW() / 10) as u8, (p.PhysH() / 10) as u8, 120, 0x02]
    ensures forall i :: 35 <= i < 38 ==> HeadBytes(p)[i] == 0
    ensures forall i :: 38 <= i < 54 ==> HeadBytes(p)[i] == 0x01
  {
  }

  /** The fixed pattern, the maker NBF, the year 2026, structure 1.4, a digital input of the mode's depth over
      DisplayPort, the size in centimetres, gamma 2.2, no established and no standard timings. */
  predicate HeaderSays(e: Bytes, p: EdidParams)
    requires |e| >= 54
  {
    && e[..8] == [0x00, 0xFF, 0xFF, 0xFF, 0xFF, 0xFF, 0xFF, 0x00]
    && Letter((e[8] as nat * 0x100 + e[9] as nat) / 0x400) == 'N' as nat
    && Letter((e[8] as nat * 0x100 + e[9] as nat) / 0x20) == 'B' as nat
    && Letter(e[8] as nat * 0x100 + e[9] as nat) == 'F' as nat
    && e[17] as nat + 1990 == 2026 && e[18] == 1 && e[19] == 4
    && e[20] as nat / 0x80 == 1 && e[20] as nat % 0x10 == 5
    && BitsPerColour(e[20]) == DepthBits(p.mode.bitDepth)
    && e[21] as nat == p.PhysW() / 10 && e[22] as nat == p.PhysH() / 10
    && e[23] as nat + 100 == 220
    && (forall i :: 35 <= i < 38 ==> e[i] == 0) && (forall i :: 38 <= i < 54 ==> e[i] == 0x01)
  }

  lemma HeadSays(p: EdidParams)
    ensures HeaderSays(HeadBytes(p), p)
  {
    HeadIs(p);
    assert forall i :: 0 <= i < 9 ==> HeadBytes(p)[16..25][i] == HeadBytes(p)[16 + i];
  }

  lemma PrefixSays(a: Bytes, b: Bytes, p: EdidParams)
    requires |a| == 54 && a <= b && HeaderSays(a, p)
    ensures HeaderSays(b, p)
  {
    assert b[..8] == a[..8];
  }

  /** The header (sections 3.3 to 3.9 of VESA E-EDID Release A Rev 2) reads back, with one extension to come. */
  lemma HeaderReadsBack(p: EdidParams)
    ensures HeaderSays(Generated(p), p) && Generated(p)[126] == 1
  {
    BasePrefix(p);
    HeadSays(p);
    PrefixSays(HeadBytes(p), Generated(p), p);
  }

  // ----- identity -----

  lemma HeadStarts(p: EdidParams)
    ensures HeadBytes(p)[..16] ==
            [0x00, 0xFF, 0xFF, 0xFF, 0xFF, 0xFF, 0xFF, 0x00, 0x38, 0x46, Lo(p.productCode), Hi(p.productCode)]
            + SerialBytes(p.serial)
  {
  }

  lemma ThirtyTwoBits(x: u32)
    ensures Lo(x) as nat + 0x100 * Hi(x) as nat
            + 0x1_0000 * (Lo(x / 0x1_0000) as nat + 0x100 * Hi(x / 0x1_0000) as nat) == x
  {
    SixteenBits(x / 0x1_0000);
    var high := x / 0x100;
    assert x == 0x100 * high + Lo(x) as nat;
    assert high / 0x100 == x / 0x1_0000;
    assert high == 0x100 * (x / 0x1_0000) + Hi(x) as nat;
  }

  /** The product code and the serial sit in the header, little-endian, at the places Windows reads. */
  lemma IdentityReadsBack(p: EdidParams)
    ensures var e := Generated(p)[..16];
            && e[..8] == [0x00, 0xFF, 0xFF, 0xFF, 0xFF, 0xFF, 0xFF, 0x00]
            && e[10] as nat + 0x100 * e[11] as nat == p.productCode
            && e[12] as nat + 0x100 * e[13] as nat + 0x1_0000 * (e[14] as nat + 0x100 * e[15] as nat) == p.serial
  {
    BasePrefix(p);
    HeadStarts(p);
    SliceOfPrefix(HeadBytes(p), Generated(p), 0, 16);
    assert Generated(p)[..16] == Generated(p)[0..16] == HeadBytes(p)[0..16] == HeadBytes(p)[..16];
    SixteenBits(p.productCode);
    ThirtyTwoBits(p.serial);
  }

  /** The value of upper-case hexadecimal digits. */
  function FromHex(digits: seq<nat>): nat {
    if digits == [] then 0
    else
      var d := digits[|digits| - 1];
      16 * FromHex(digits[..|digits| - 1]) + if d < 0x41 then (if d >= 0x30 then d - 0x30 else 0) else d - 0x41 + 10
  }

  function Power16(n: nat): nat { if n == 0 then 1 else 16 * Power16(n - 1) }

  lemma {:induction false} HexReadsBack(x: nat, n: nat)
    requires x < Power16(n)
    ensures FromHex(Hex(x, n)) == x
  {
    if n > 0 {
      HexReadsBack(x / 16, n - 1);
      assert Hex(x, n)[..n - 1] == Hex(x / 16, n - 1);
    }
  }

  lemma {:induction false} HexIsPrintable(x: nat, n: nat)
    ensures forall i :: 0 <= i < n ==> 0x30 <= Hex(x, n)[i] <= 0x46
  {
    if n > 0 { HexIsPrintable(x / 16, n - 1); }
  }

  lemma PowerOf8()
    ensures Power16(8) == 0x1_0000_0000
  {
    assert Power16(4) == 0x1_0000;
    assert Power16(6) == 0x100_0000;
  }

  function Codes(b: Bytes): (r: seq<nat>)
    ensures |r| == |b| && forall i :: 0 <= i < |b| ==> r[i] == b[i] as nat
  {
    seq(|b|, i requires 0 <= i < |b| => b[i] as nat)
  }

  lemma SerialTextIsPrinted(serial: u32)
    ensures Codes(PrintedText(SerialText(serial))) == SerialText(serial)
  {
    HexIsPrintable(serial, 8);
    forall i | 0 <= i < 12 ensures PrintedText(SerialText(serial))[i] as nat == SerialText(serial)[i] {
      assert 4 <= i ==> SerialText(serial)[i] == Hex(serial, 8)[i - 4];
    }
  }

  lemma SerialTextSpells(serial: u32)
    ensures SerialText(serial)[..4] == [0x4C, 0x56, 0x47, 0x44] && FromHex(SerialText(serial)[4..]) == serial
  {
    PowerOf8();
    HexReadsBack(serial, 8);
    assert SerialText(serial)[4..] == Hex(serial, 8);
  }

  /** The serial-number string, read as a monitor tool reads it, spells LVGD and the binary serial in hex. */
  lemma SerialStringMatchesSerial(p: EdidParams)
    ensures var text := Codes(ReadText(Generated(p)[95..108]));
            |text| == 12 && text[..4] == [0x4C, 0x56, 0x47, 0x44] && FromHex(text[4..]) == p.serial
  {
    BasePrefix(p);
    assert Generated(p)[95..108] == Generated(p)[90..108][5..];
    TextReadsBack(0xFF, SerialText(p.serial));
    SerialTextIsPrinted(p.serial);
    SerialTextSpells(p.serial);
  }

  /** The product name reads back, unprintables replaced, cut at 13 characters. */
  lemma NameReadsBack(p: EdidParams)
    ensures Generated(p)[75] == 0xFC && ReadText(Generated(p)[77..90]) == PrintedText(p.name)
  {
    BasePrefix(p);
    assert Generated(p)[77..90] == Generated(p)[72..90][5..];
    assert Generated(p)[75] == Generated(p)[72..90][3];
    TextReadsBack(0xFC, p.name);
  }

  // ----- the preferred timing -----

  lemma PhysicalFits(p: EdidParams)
    ensures 0 < p.PhysW() <= MAX_PHYSICAL_SIZE_MM && 0 < p.PhysH() <= MAX_PHYSICAL_SIZE_MM
  {
  }

  /** A stand-in never runs that slowly. */
  lemma StandInIsFast(mode: Mode)
    requires Chosen(mode).StandIn?
    ensures var (w, h, hz) := Timed(mode); PixelRate(w, h, hz) >= 5_000_000
  {
    var (w, h, hz) := Timed(mode);
    ChosenFits(mode);
    RateIsMonotone(0, w, 0, h, MIN_STAND_IN_MILLIHZ, hz);
  }

  /**
   The preferred timing descriptor of any mode decodes to a timing that fits, within 5 kHz of its own
   pixel rate: to the mode itself when that fits, else to the stand-in. It fails to be a timing exactly
   when the mode's resolution fits a descriptor and its own pixel rate is below 5 kHz.
   */
  lemma PreferredTimingReadsBack(p: EdidParams)
    ensures var (w, h, hz) := Timed(p.mode);
            var r := DecodeDtd(Generated(p)[54..72]);
            && w <= DTD_MAX_ACTIVE && h <= DTD_MAX_ACTIVE && Clock10khz(w, h, hz) <= DTD_MAX_CLOCK_10KHZ
            && (DtdFits(p.mode.width, p.mode.height, p.mode.refreshMillihz) ==>
                  (w, h, hz) == (p.mode.width, p.mode.height, p.mode.refreshMillihz))
            && (r.None? <==>
                  && p.mode.width <= DTD_MAX_ACTIVE && p.mode.height <= DTD_MAX_ACTIVE
                  && PixelRate(p.mode.width, p.mode.height, p.mode.refreshMillihz) < 5_000_000)
            && (r.Some? ==>
                  && r.value.width == w && r.value.height == h
                  && r.value.hblank == HBLANK && r.value.vblank == VBLANK
                  && r.value.widthMm == p.PhysW() && r.value.heightMm == p.PhysH()
                  && r.value.clock10khz * 10_000_000 <= PixelRate(w, h, hz) + 5_000_000
                  && PixelRate(w, h, hz) < r.value.clock10khz * 10_000_000 + 5_000_000)
  {
    var (w, h, hz) := Timed(p.mode);
    BasePrefix(p);
    ChosenFits(p.mode);
    PhysicalFits(p);
    DtdDecodes(w, h, hz, p.PhysW(), p.PhysH());
    ClockError(w, h, hz);
    if Chosen(p.mode).StandIn? { StandInIsFast(p.mode); }
  }

  /** At 1 Hz and above every validated mode gets a real timing. */
  lemma OneHertzIsEnough(mode: Mode)
    requires InEnvelope(mode.Spec()) && mode.refreshMillihz >= 1000
    ensures var (w, h, hz) := Timed(mode); PixelRate(w, h, hz) >= 5_000_000
  {
    var (w, h, hz) := Timed(mode);
    ChosenFits(mode);
    RateIsMonotone(MIN_WIDTH, w, MIN_HEIGHT, h, 1000, hz);
  }

  /** Below that one can miss: the smallest mode at a millihertz prints a clock of zero. */
  lemma SlowModeLosesItsTiming(p: EdidParams)
    requires p.mode == Mode(320, 200, 1, Sdr8, false)
    ensures InEnvelope(p.mode.Spec()) && DecodeDtd(Generated(p)[54..72]).None?
  {
    PreferredTimingReadsBack(p);
  }

  // ----- the CTA-861 extension -----

  /** Walking data blocks from `at`, each one header byte and its payload, ends exactly at the limit. */
  predicate WalkEnds(ext: Bytes, at: nat, limit: nat)
    requires limit <= |ext|
    decreases limit - at
  {
    at == limit || (at < limit && at + 1 + ext[at] as nat % 0x20 <= limit
                    && WalkEnds(ext, at + 1 + ext[at] as nat % 0x20, limit))
  }

  function Extension(p: EdidParams): (ext: Bytes)
    ensures |ext| == 128
  {
    Generated(p)[128..]
  }

  lemma ExtensionStarts(p: EdidParams)
    ensures Extension(p)[..127] == CtaBytes(p)
  {
    Blocks(p);
  }

  lemma SdrExtension(p: EdidParams)
    requires !p.mode.hdr
    ensures CtaBytes(p) == [0x02, 0x03, 4, 0x00] + Fill(123, 0)
  {
  }

  lemma HdrExtension(p: EdidParams)
    requires p.mode.hdr
    ensures CtaBytes(p) ==
            [0x02, 0x03, 15, 0x00, 0xE3, 0x05, 0xC0, 0x00, 0xE6, 0x06, 0x05, 0x01,
             p.luminance.max, p.luminance.maxFall, p.luminance.min] + Fill(112, 0)
  {
  }

  lemma TwoBlocks(ext: Bytes)
    requires |ext| >= 15 && ext[4] == 0xE3 && ext[8] == 0xE6
    ensures WalkEnds(ext, 4, 15)
  {
    assert WalkEnds(ext, 15, 15);
    assert WalkEnds(ext, 8, 15);
  }

  /**
   The extension's data blocks (CTA-861 section 7.5) end exactly at the declared offset: none for an SDR
   monitor; for HDR a colorimetry block and a static-metadata block that carries the luminance codes.
   */
  lemma CtaWalkEndsAtTheOffset(p: EdidParams)
    ensures var ext := Extension(p)[..127];
            && ext[0] == 0x02 && ext[1] == 0x03
            && 4 <= ext[2] as nat <= 127 && WalkEnds(ext, 4, ext[2] as nat)
            && (!p.mode.hdr ==> ext[2] == 4)
            && (p.mode.hdr ==>
                  && ext[2] == 15
                  && ext[4] as nat / 0x20 == 7 && ext[5] == 5
                  && ext[8] as nat / 0x20 == 7 && ext[9] == 6
                  && ext[6] == 0xC0                        // BT.2020 RGB and YCC
                  && ext[10] == 0x05 && ext[11] == 0x01    // SDR and PQ transfer, metadata type 1
                  && ext[12] == p.luminance.max && ext[13] == p.luminance.maxFall && ext[14] == p.luminance.min)
            && (forall i :: ext[2] as nat <= i < 127 ==> ext[i] == 0)
  {
    ExtensionStarts(p);
    if p.mode.hdr {
      HdrExtension(p);
      TwoBlocks(CtaBytes(p));
    } else {
      SdrExtension(p);
    }
  }
}
