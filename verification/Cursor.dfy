/**
 The cursor shape section: one writer rewriting the shape behind a sequence lock, one reader copying it
 out. Every load and store, down to the single pixel byte, is one step of the machine; the generation
 does not wrap. The section's position words are not part of this model.
 */
module Cursor {
  import opened Prelude

  const CURSOR_MAX_DIM: nat := 256
  const SHAPE_BYTES: nat := 262_144   // CURSOR_MAX_DIM * CURSOR_MAX_DIM * 4
  const SHAPE_RETRIES: nat := 8

  datatype Header = Header(kind: nat, width: nat, height: nat, hotspotX: nat, hotspotY: nat)
  {
    function Bytes(): nat { width * height * 4 }
  }

  /** A shape as the OS hands it over: rows at its own pitch. */
  datatype Source = Source(header: Header, rows: seq<u8>, pitch: nat)
  {
    function RowBytes(): nat { header.width * 4 }

    /** What the worker checks before it writes. */
    predicate Valid() {
      && 0 < header.width <= CURSOR_MAX_DIM && 0 < header.height <= CURSOR_MAX_DIM
      && RowBytes() <= pitch && |rows| == header.height * pitch
    }
  }

  /** A published shape: rows back to back. */
  datatype Shape = Shape(header: Header, bytes: seq<u8>)

  /** Byte b of row r, at the source's pitch. */
  function SourceByte(s: Source, r: nat, b: nat): u8
    requires s.Valid() && r < s.header.height && b < s.RowBytes()
  {
    RowFits(r, s.header.height, s.pitch);
    s.rows[r * s.pitch + b]
  }

  lemma RowFits(r: nat, height: nat, pitch: nat)
    requires r < height
    ensures r * pitch + pitch <= height * pitch
  {
    assert (r + 1) * pitch <= height * pitch by { TimesGrows(r + 1, height, pitch); }
  }

  lemma TimesGrows(a: nat, b: nat, c: nat)
    requires a <= b
    ensures a * c <= b * c
  {
    assert b * c == a * c + (b - a) * c;
  }

  function Place(s: Source, r: nat, b: nat): nat { r * s.RowBytes() + b }

  /** Byte b of row r is where a width * 4 pitch puts it. */
  ghost predicate InPlace(s: Source, bytes: seq<u8>, r: nat, b: nat)
    requires s.Valid() && r < s.header.height && b < s.RowBytes()
  {
    Place(s, r, b) < |bytes| && bytes[Place(s, r, b)] == SourceByte(s, r, b)
  }

  /** The rows compacted. */
  ghost predicate IsCompaction(s: Source, bytes: seq<u8>)
    requires s.Valid()
  {
    && |bytes| == s.header.Bytes()
    && forall r: nat, b: nat :: r < s.header.height && b < s.RowBytes() ==> InPlace(s, bytes, r, b)
  }

  lemma BytesByRow(s: Source)
    ensures s.header.Bytes() == s.header.height * s.RowBytes()
  {
    var w, h := s.header.width, s.header.height;
    assert w * h * 4 == h * (w * 4);
  }

  lemma PlaceFits(s: Source, r: nat, b: nat)
    requires s.Valid() && r < s.header.height && b < s.RowBytes()
    ensures Place(s, r, b) < s.header.Bytes() <= SHAPE_BYTES
  {
    BytesByRow(s);
    RowFits(r, s.header.height, s.RowBytes());
    SmallProduct(s.header.width, s.header.height);
  }

  lemma SmallProduct(w: nat, h: nat)
    requires w <= CURSOR_MAX_DIM && h <= CURSOR_MAX_DIM
    ensures w * h * 4 <= SHAPE_BYTES
  {
    TimesGrows(w, CURSOR_MAX_DIM, h);
  }

  // ----- the two sides with nothing in between -----

  class CursorSection {
    var generation: nat
    var header: Header
    const data: array<u8>

    constructor ()
      ensures fresh(data) && data.Length == SHAPE_BYTES && generation == 0
    {
      generation, header := 0, Header(0, 0, 0, 0, 0);
      data := new u8[SHAPE_BYTES](i => 0);
    }

    /** Rewrites the shape: metadata, then the rows at a width * 4 pitch, between an odd generation and
        the even one after it. A rewrite left unfinished is simply taken up. */
    method WriteShape(s: Source)
      requires s.Valid() && data.Length == SHAPE_BYTES
      modifies this, data
      ensures generation % 2 == 0 && old(generation) < generation <= old(generation) + 2 && header == s.header
      ensures s.header.Bytes() <= SHAPE_BYTES && IsCompaction(s, data[..s.header.Bytes()])
    {
      var odd := if generation % 2 == 0 then generation + 1 else generation;
      generation := odd;
      header := s.header;
      PlaceFits(s, 0, 0);
      for row := 0 to s.header.height
        invariant Copied(s, data[..], row, 0)
        modifies data
      {
        for b := 0 to s.RowBytes()
          invariant Copied(s, data[..], row, b)
          modifies data
        {
          PlaceFits(s, row, b);
          CopyOne(s, data[..], row, b);
          data[Place(s, row, b)] := SourceByte(s, row, b);
        }
        RowDone(s, data[..], row);
      }
      AllRowsDone(s, data[..]);
      generation := odd + 1;
    }

    /** The shape, if one was published and fits the buffer. */
    method ReadShape(bufLen: nat) returns (r: Option<Shape>)
      requires data.Length == SHAPE_BYTES
      ensures r == if generation % 2 == 0 && generation > 0 && 0 < header.Bytes() <= bufLen
                      && header.Bytes() <= SHAPE_BYTES
                   then Some(Shape(header, data[..header.Bytes()])) else None
    {
      for attempt := 0 to SHAPE_RETRIES
        invariant attempt > 0 ==> generation % 2 == 1
      {
        var g1 := generation;
        if g1 == 0 { return None; }
        if g1 % 2 != 0 { continue; }
        var bytes := header.Bytes();
        if bytes == 0 || bytes > bufLen || bytes > SHAPE_BYTES { return None; }
        var buf := data[..bytes];
        if generation == g1 { return Some(Shape(header, buf)); }
      }
      return None;
    }
  }

  predicate Before(r: nat, b: nat, row: nat, n: nat) { r < row || (r == row && b < n) }

  /** Rows before `row`, and the first n bytes of that row, are in place. */
  ghost predicate Copied(s: Source, data: seq<u8>, row: nat, n: nat)
    requires s.Valid()
  {
    forall r: nat, b: nat :: r < s.header.height && b < s.RowBytes() && Before(r, b, row, n) ==> InPlace(s, data, r, b)
  }

  /** Two places coincide only for the same byte. */
  lemma PlacesDiffer(s: Source, r: nat, b: nat, r': nat, b': nat)
    requires s.Valid() && r < s.header.height && r' < s.header.height && b < s.RowBytes() && b' < s.RowBytes()
    requires r < r' || (r == r' && b < b')
    ensures Place(s, r, b) < Place(s, r', b')
  {
    if r < r' { TimesGrows(r + 1, r', s.RowBytes()); }
  }

  lemma CopyOne(s: Source, data: seq<u8>, row: nat, n: nat)
    requires s.Valid() && row < s.header.height && n < s.RowBytes() && Copied(s, data, row, n)
    requires Place(s, row, n) < |data|
    ensures Copied(s, data[Place(s, row, n) := SourceByte(s, row, n)], row, n + 1)
  {
    var data' := data[Place(s, row, n) := SourceByte(s, row, n)];
    forall r: nat, b: nat | r < s.header.height && b < s.RowBytes() && Before(r, b, row, n + 1)
      ensures InPlace(s, data', r, b)
    {
      if Before(r, b, row, n) {
        PlacesDiffer(s, r, b, row, n);
        assert InPlace(s, data, r, b);
      }
    }
  }

  lemma RowDone(s: Source, data: seq<u8>, row: nat)
    requires s.Valid() && Copied(s, data, row, s.RowBytes())
    ensures Copied(s, data, row + 1, 0)
  {
    forall r: nat, b: nat | r < s.header.height && b < s.RowBytes() && Before(r, b, row + 1, 0)
      ensures InPlace(s, data, r, b)
    {
      assert Before(r, b, row, s.RowBytes());
    }
  }

  lemma AllRowsDone(s: Source, data: seq<u8>)
    requires s.Valid() && Copied(s, data, s.header.height, 0) && s.header.Bytes() <= |data|
    ensures IsCompaction(s, data[..s.header.Bytes()])
  {
    forall r: nat, b: nat | r < s.header.height && b < s.RowBytes()
      ensures InPlace(s, data[..s.header.Bytes()], r, b)
    {
      assert Before(r, b, s.header.height, 0);
      assert InPlace(s, data, r, b);
      PlaceFits(s, r, b);
    }
  }
}
