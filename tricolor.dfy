/** The tri-colour driver `Ssd1680TriColor` (src/ssd1680tricolor.rs):
    two packed bit planes written in parallel, the colour encoding they
    hold, and the flush sequence that sends both planes. */
module TriColorDriver {
  import opened Lib
  import opened Commands
  import opened Display
  import opened Interface

  /** `TriColor`: the three colours of a black/white/chromatic panel. */
  datatype TriColor = Black | White | Chromatic

  /** `get_bit_value`: the colour as a single black/white bit, set only
      for White. */
  function GetBitValue(c: TriColor): (v: u8)
    ensures v <= 1
    ensures v == 1 <==> c == White
  {
    match c
    case White => 1
    case Black | Chromatic => 0
  }

  /** `get_byte_value`: a whole byte of the colour's black/white bit. */
  function GetByteValue(c: TriColor): (v: u8)
    ensures v == GetBitValue(c) * 0xFF
  {
    match c
    case White => 0xFF
    case Black | Chromatic => 0x00
  }

  /** Every one of the eight bits of `get_byte_value` is the colour's
      `get_bit_value`. */
  lemma ByteValueBits(c: TriColor, k: nat)
    requires k < 8
    ensures (GetByteValue(c) as bv8 & Mask(k) != 0) <==> GetBitValue(c) == 1
  {
    assert Mask(k) != 0;
  }

  /** The two planes, `buffer` and `buffer2`. */
  datatype Planes = Planes(plane1: seq<bv8>, plane2: seq<bv8>)

  /** The byte index and mask the tri-colour `set_pixel` computes for
      logical (x, y): `nx / 8 + 16 * (DISPLAY_WIDTH - 1 - ny)` and
      `0x80 >> (nx % 8)`, the axes swapped relative to the monochrome
      driver, in `u32` arithmetic that wraps as in a release build. */
  function TriAddress(rotation: DisplayRotation, x: u32, y: u32): BitAddress
  {
    var (nx, ny) := FindRotation(x, y, DISPLAY_HEIGHT, DISPLAY_WIDTH, rotation);
    BitAddress(WrapAdd(nx / 8, WrapMul(ROW_BYTES, WrapSub(DISPLAY_WIDTH - 1, ny))), Mask(nx % 8))
  }

  /** The addressed byte of each plane after drawing into bit `mask`:
      Black clears the bit in both planes, Chromatic sets it in both,
      White sets it in plane 1 and clears it in plane 2. */
  function PaintBytes(b1: bv8, b2: bv8, mask: bv8, color: TriColor): (bv8, bv8)
  {
    match color
    case Black => (b1 & !mask, b2 & !mask)
    case Chromatic => (b1 | mask, b2 | mask)
    case White => (b1 | mask, b2 & !mask)
  }

  /** The bit pair (plane 1, plane 2) a colour leaves behind. */
  function Encode(color: TriColor): (bool, bool)
  {
    match color
    case Black => (false, false)
    case White => (true, false)
    case Chromatic => (true, true)
  }

  /** The colour a bit pair stands for; plane 2 set with plane 1 clear
      is no colour at all. */
  function Decode(bit1: bool, bit2: bool): (c: Option<TriColor>)
    ensures c.Some? ==> Encode(c.value) == (bit1, bit2)
    ensures c.None? <==> !bit1 && bit2
  {
    match (bit1, bit2)
    case (false, false) => Some(Black)
    case (true, false) => Some(White)
    case (true, true) => Some(Chromatic)
    case (false, true) => None
  }

  /** Decoding the encoding of a colour gives the colour back. */
  lemma DecodeEncode(color: TriColor)
    ensures Decode(Encode(color).0, Encode(color).1) == Some(color)
  {
  }

  /** Drawing into a byte pair writes into each plane's byte the bit
      `Encode` gives for the colour (so, by `WriteBitEffect`, only the
      masked bit of each byte changes). */
  lemma PaintBytesEffect(b1: bv8, b2: bv8, mask: bv8, color: TriColor)
    ensures PaintBytes(b1, b2, mask, color) == (WriteBit(b1, mask, Encode(color).0), WriteBit(b2, mask, Encode(color).1))
  {
    match color
    case Black =>
      assert Encode(color) == (false, false);
    case Chromatic =>
      assert Encode(color) == (true, true);
    case White =>
      assert Encode(color) == (true, false);
  }

  /** Both planes after drawing at address `a`: an index at or past the
      end of plane 1 is ignored, otherwise only the addressed byte of
      each plane changes. */
  function PaintAt(planes: Planes, a: BitAddress, color: TriColor): Planes
    requires |planes.plane1| == |planes.plane2|
  {
    if a.index >= |planes.plane1| then planes
    else
      var (r1, r2) := PaintBytes(planes.plane1[a.index], planes.plane2[a.index], a.mask, color);
      Planes(planes.plane1[a.index := r1], planes.plane2[a.index := r2])
  }

  /** The planes after `set_pixel(x, y, color)`. */
  function Paint(planes: Planes, rotation: DisplayRotation, x: u32, y: u32, color: TriColor): Planes
    requires |planes.plane1| == |planes.plane2|
  {
    PaintAt(planes, TriAddress(rotation, x, y), color)
  }

  /** Reading a pixel back: None when its address is past the end, else
      the colour its bit pair decodes to. */
  function ReadPixel(planes: Planes, rotation: DisplayRotation, x: u32, y: u32): Option<TriColor>
    requires |planes.plane1| == |planes.plane2|
  {
    var a := TriAddress(rotation, x, y);
    if a.index >= |planes.plane1| then None
    else Decode(planes.plane1[a.index] & a.mask != 0, planes.plane2[a.index] & a.mask != 0)
  }

  /** Drawing at an address changes at most one byte of each plane:
      nothing when the index is out of range, otherwise the addressed
      bytes become `PaintBytes` of their old values. */
  lemma PaintAtEffect(planes: Planes, a: BitAddress, color: TriColor)
    requires |planes.plane1| == |planes.plane2|
    ensures var r := PaintAt(planes, a, color);
      && |r.plane1| == |r.plane2| == |planes.plane1|
      && (a.index >= |planes.plane1| ==> r == planes)
      && (forall j :: 0 <= j < |planes.plane1| && j != a.index ==>
            r.plane1[j] == planes.plane1[j] && r.plane2[j] == planes.plane2[j])
      && (a.index < |planes.plane1| ==>
            (r.plane1[a.index], r.plane2[a.index]) == PaintBytes(planes.plane1[a.index], planes.plane2[a.index], a.mask, color))
  {
  }

  /** A pixel whose address is inside the planes reads back as the
      colour just written to it. */
  lemma ReadBack(planes: Planes, rotation: DisplayRotation, x: u32, y: u32, color: TriColor)
    requires |planes.plane1| == |planes.plane2|
    requires TriAddress(rotation, x, y).index < |planes.plane1|
    ensures ReadPixel(Paint(planes, rotation, x, y, color), rotation, x, y) == Some(color)
  {
    var a := TriAddress(rotation, x, y);
    PaintBytesEffect(planes.plane1[a.index], planes.plane2[a.index], a.mask, color);
    WriteBitEffect(planes.plane1[a.index], a.mask, Encode(color).0);
    WriteBitEffect(planes.plane2[a.index], a.mask, Encode(color).1);
    DecodeEncode(color);
  }

  /** Writing a pixel twice leaves what the second write alone leaves. */
  lemma PaintLastWins(planes: Planes, rotation: DisplayRotation, x: u32, y: u32, first: TriColor, second: TriColor)
    requires |planes.plane1| == |planes.plane2|
    ensures Paint(Paint(planes, rotation, x, y, first), rotation, x, y, second) == Paint(planes, rotation, x, y, second)
  {
    var a := TriAddress(rotation, x, y);
    if a.index < |planes.plane1| {
      var (b1, b2) := (planes.plane1[a.index], planes.plane2[a.index]);
      var (m1, m2) := PaintBytes(b1, b2, a.mask, first);
      PaintBytesEffect(b1, b2, a.mask, first);
      PaintBytesEffect(m1, m2, a.mask, second);
      PaintBytesEffect(b1, b2, a.mask, second);
      WriteBitLastWins(b1, a.mask, Encode(first).0, Encode(second).0);
      WriteBitLastWins(b2, a.mask, Encode(first).1, Encode(second).1);
      assert planes.plane1[a.index := m1][a.index := 0] == planes.plane1[a.index := 0];
      assert planes.plane2[a.index := m2][a.index := 0] == planes.plane2[a.index := 0];
    }
  }

  /** The planes of a fresh driver: plane 1 all 0xFF, plane 2 all 0x00. */
  function FreshPlanes(): Planes
  {
    Planes(seq(BUF_SIZE, _ => 0xFF), seq(BUF_SIZE, _ => 0x00))
  }

  /** On a fresh driver every pixel whose address lies inside the planes
      reads White. */
  lemma FreshIsWhite(rotation: DisplayRotation, x: u32, y: u32)
    requires TriAddress(rotation, x, y).index < BUF_SIZE
    ensures ReadPixel(FreshPlanes(), rotation, x, y) == Some(White)
  {
    var a := TriAddress(rotation, x, y);
    assert FreshPlanes().plane1[a.index] == 0xFF && FreshPlanes().plane2[a.index] == 0x00;
    assert a.mask != 0;
  }

  /** Unrotated, the region x < 128, y < 250 lands in the planes, at byte
      x / 8 + 16 * (249 - y), bit x % 8. */
  lemma Rotate0Address(x: u32, y: u32)
    requires x < 128 && y < 250
    ensures TriAddress(Rotate0, x, y) == BitAddress(x / 8 + 16 * (249 - y), Mask(x % 8))
    ensures TriAddress(Rotate0, x, y).index < BUF_SIZE
  {
  }

  /** Unrotated, distinct pixels of that region have distinct addresses. */
  lemma Rotate0Injective(x1: u32, y1: u32, x2: u32, y2: u32)
    requires x1 < 128 && y1 < 250 && x2 < 128 && y2 < 250
    requires TriAddress(Rotate0, x1, y1) == TriAddress(Rotate0, x2, y2)
    ensures x1 == x2 && y1 == y2
  {
    Rotate0Address(x1, y1);
    Rotate0Address(x2, y2);
    var q1, q2 := x1 / 8, x2 / 8;
    var k1, k2 := 249 - y1, 249 - y2;
    assert q1 + 16 * k1 == q2 + 16 * k2;
    assert y1 == y2 && q1 == q2;
    MaskInjective(x1 % 8, x2 % 8);
  }

  /** Unrotated, the advertised 250 x 122 drawing area does not fit that
      region: (128, 1) and (0, 0) share a byte and a bit. */
  lemma Rotate0Collision()
    ensures InBoundingBox(128, 1) && InBoundingBox(0, 0)
    ensures TriAddress(Rotate0, 128, 1) == TriAddress(Rotate0, 0, 0) == BitAddress(3984, 0x80)
  {
  }

  /** Rotated by 90 degrees, every pixel of the advertised 250 x 122
      drawing area lands in the planes, at byte y / 8 + 16 * x, bit
      y % 8. */
  lemma Rotate90Address(x: u32, y: u32)
    requires InBoundingBox(x, y)
    ensures TriAddress(Rotate90, x, y) == BitAddress(y / 8 + 16 * x, Mask(y % 8))
    ensures TriAddress(Rotate90, x, y).index < BUF_SIZE
  {
    var (nx, ny) := FindRotation(x, y, DISPLAY_HEIGHT, DISPLAY_WIDTH, Rotate90);
    assert nx == y && ny == 249 - x;
    assert WrapSub(DISPLAY_WIDTH - 1, ny) == x;
    assert WrapMul(ROW_BYTES, x) == 16 * x;
  }

  /** Rotated by 90 degrees, distinct pixels of the drawing area have
      distinct addresses. */
  lemma Rotate90Injective(x1: u32, y1: u32, x2: u32, y2: u32)
    requires InBoundingBox(x1, y1) && InBoundingBox(x2, y2)
    requires TriAddress(Rotate90, x1, y1) == TriAddress(Rotate90, x2, y2)
    ensures x1 == x2 && y1 == y2
  {
    Rotate90Address(x1, y1);
    Rotate90Address(x2, y2);
    var q1, q2 := y1 / 8, y2 / 8;
    assert q1 + 16 * x1 == q2 + 16 * x2;
    assert x1 == x2 && q1 == q2;
    MaskInjective(y1 % 8, y2 % 8);
  }

  /** Rotated by 90 degrees, writing one pixel of the drawing area leaves
      every other pixel of the area reading as before. */
  lemma Rotate90PaintKeepsOthers(planes: Planes, x: u32, y: u32, x2: u32, y2: u32, color: TriColor)
    requires |planes.plane1| == |planes.plane2|
    requires InBoundingBox(x, y) && InBoundingBox(x2, y2) && (x, y) != (x2, y2)
    ensures ReadPixel(Paint(planes, Rotate90, x2, y2, color), Rotate90, x, y) == ReadPixel(planes, Rotate90, x, y)
  {
    var a, a2 := TriAddress(Rotate90, x, y), TriAddress(Rotate90, x2, y2);
    if a == a2 {
      Rotate90Injective(x, y, x2, y2);
    }
    if a.index == a2.index && a.index < |planes.plane1| {
      Rotate90Address(x, y);
      Rotate90Address(x2, y2);
      MasksDisjoint(y % 8, y2 % 8);
      PaintBytesEffect(planes.plane1[a.index], planes.plane2[a.index], a2.mask, color);
      WriteBitKeepsOthers(planes.plane1[a.index], a2.mask, Encode(color).0, a.mask);
      WriteBitKeepsOthers(planes.plane2[a.index], a2.mask, Encode(color).1, a.mask);
    }
  }

  /** `draw_iter`: each pixel inside the bounding box is drawn with
      `set_pixel`, in order; pixels outside it are skipped. */
  function Draw(planes: Planes, rotation: DisplayRotation, pixels: seq<Pixel<TriColor>>): (r: Planes)
    requires |planes.plane1| == |planes.plane2|
    ensures |r.plane1| == |r.plane2| == |planes.plane1|
    decreases |pixels|
  {
    if pixels == [] then planes
    else
      var before := Draw(planes, rotation, pixels[..|pixels| - 1]);
      var p := pixels[|pixels| - 1];
      if InBoundingBox(p.x, p.y) then Paint(before, rotation, p.x as u32, p.y as u32, p.color) else before
  }

  /** Rotated by 90 degrees, after `draw_iter` a pixel of the drawing
      area reads back as the colour of the last pixel drawn at its
      position. */
  lemma {:induction false} DrawLastWins(planes: Planes, pixels: seq<Pixel<TriColor>>, j: nat)
    requires |planes.plane1| == |planes.plane2| == BUF_SIZE
    requires j < |pixels| && InBoundingBox(pixels[j].x, pixels[j].y)
    requires forall k :: j < k < |pixels| ==> (pixels[k].x, pixels[k].y) != (pixels[j].x, pixels[j].y)
    ensures ReadPixel(Draw(planes, Rotate90, pixels), Rotate90, pixels[j].x as u32, pixels[j].y as u32) == Some(pixels[j].color)
    decreases |pixels|
  {
    var n := |pixels|;
    var p, q := pixels[j], pixels[n - 1];
    var init := pixels[..n - 1];
    var before := Draw(planes, Rotate90, init);
    Rotate90Address(p.x as u32, p.y as u32);
    if j == n - 1 {
      ReadBack(before, Rotate90, p.x as u32, p.y as u32, p.color);
    } else {
      assert init[j] == p;
      DrawLastWins(planes, init, j);
      if InBoundingBox(q.x, q.y) {
        Rotate90PaintKeepsOthers(before, p.x as u32, p.y as u32, q.x as u32, q.y as u32, q.color);
      }
    }
  }

  /** Rotated by 90 degrees, after `draw_iter` a pixel of the drawing
      area that no drawn pixel addresses reads as it did before. */
  lemma {:induction false} DrawKeepsUndrawn(planes: Planes, pixels: seq<Pixel<TriColor>>, x: u32, y: u32)
    requires |planes.plane1| == |planes.plane2| == BUF_SIZE
    requires InBoundingBox(x, y)
    requires forall k :: 0 <= k < |pixels| ==> (pixels[k].x as int, pixels[k].y as int) != (x as int, y as int)
    ensures ReadPixel(Draw(planes, Rotate90, pixels), Rotate90, x, y) == ReadPixel(planes, Rotate90, x, y)
    decreases |pixels|
  {
    if pixels != [] {
      var n := |pixels|;
      var q := pixels[n - 1];
      var init := pixels[..n - 1];
      assert forall k :: 0 <= k < |init| ==> init[k] == pixels[k];
      DrawKeepsUndrawn(planes, init, x, y);
      if InBoundingBox(q.x, q.y) {
        Rotate90PaintKeepsOthers(Draw(planes, Rotate90, init), x, y, q.x as u32, q.y as u32, q.color);
      }
    }
  }

  /* ---- Flush sequence. ---- */

  /** `flush`: power up, load plane 1 into RAM 1 and plane 2 into RAM 2,
      refresh, power down. */
  function FlushScript(plane1: seq<bv8>, plane2: seq<bv8>): seq<Event>
  {
    PowerUpScript() + LoadFrameScript(plane1, WriteRAM1) + LoadFrameScript(plane2, WriteRAM2)
      + ActivateScript() + PowerDownScript()
  }

  /** After `power_up`, `flush` sends RAM counters (1, 0), WriteRAM1 and
      plane 1 as one data write, a busy wait, the same for WriteRAM2 and
      plane 2, then DispCtrl2 [0xF4], MasterActivate, a busy wait, and
      Sleep [0x01]. */
  lemma FlushContents(plane1: seq<bv8>, plane2: seq<bv8>)
    ensures FlushScript(plane1, plane2) == PowerUpScript()
      + [Dc(false), Write([0x4E]), Dc(true), Write([0x01]), Dc(false), Write([0x4F]), Dc(true), Write([0x00, 0x00]),
         Dc(false), Write([0x24]), Dc(true), Write(plane1), WaitBusyLow]
      + [Dc(false), Write([0x4E]), Dc(true), Write([0x01]), Dc(false), Write([0x4F]), Dc(true), Write([0x00, 0x00]),
         Dc(false), Write([0x26]), Dc(true), Write(plane2), WaitBusyLow]
      + [Dc(false), Write([0x22]), Dc(true), Write([0xF4]), Dc(false), Write([0x20]), WaitBusyLow]
      + [Dc(false), Write([0x10]), Dc(true), Write([0x01])]
  {
    LoadFrameContents(plane1, WriteRAM1);
    LoadFrameContents(plane2, WriteRAM2);
    var zero: u8 := 0;
    ScriptContents(Sleep, [0x01], 1, zero);
  }

  /** `Ssd1680TriColor`: the two planes, the rotation and the interface. */
  class Ssd1680TriColor<E> {
    const buffer: array<bv8>
    const buffer2: array<bv8>
    const rotation: DisplayRotation
    const interface: SpiInterface<E>

    ghost predicate Valid()
      reads this
    {
      buffer.Length == BUF_SIZE && buffer2.Length == BUF_SIZE && buffer != buffer2
    }

    /** `Ssd1680TriColor::new`: plane 1 all 0xFF and plane 2 all 0x00,
        i.e. every pixel White. */
    constructor (spi: Device<E>, rotation: DisplayRotation)
      ensures Valid() && fresh(buffer) && fresh(buffer2) && fresh(interface)
      ensures this.rotation == rotation && interface.spi == spi && interface.log == []
      ensures Planes(buffer[..], buffer2[..]) == FreshPlanes()
    {
      interface := new SpiInterface(spi);
      this.rotation := rotation;
      buffer := new bv8[BUF_SIZE](_ => 0xFF);
      buffer2 := new bv8[BUF_SIZE](_ => 0x00);
    }

    /** `set_pixel`. */
    method SetPixel(x: u32, y: u32, color: TriColor)
      requires Valid()
      modifies buffer, buffer2
      ensures Planes(buffer[..], buffer2[..]) == Paint(Planes(old(buffer[..]), old(buffer2[..])), rotation, x, y, color)
    {
      var a := TriAddress(rotation, x, y);
      if a.index >= buffer.Length {
        return;
      }
      ghost var before := Planes(buffer[..], buffer2[..]);
      var (r1, r2) := PaintBytes(buffer[a.index], buffer2[a.index], a.mask, color);
      buffer[a.index] := r1;
      buffer2[a.index] := r2;
      assert buffer[..] == before.plane1[a.index := r1];
      assert buffer2[..] == before.plane2[a.index := r2];
    }

    /** `draw_iter`, over a finite sequence of pixels. */
    method DrawIter(pixels: seq<Pixel<TriColor>>)
      requires Valid()
      modifies buffer, buffer2
      ensures Planes(buffer[..], buffer2[..]) == Draw(Planes(old(buffer[..]), old(buffer2[..])), rotation, pixels)
    {
      ghost var start := Planes(buffer[..], buffer2[..]);
      var i := 0;
      while i < |pixels|
        invariant i <= |pixels|
        invariant Planes(buffer[..], buffer2[..]) == Draw(start, rotation, pixels[..i])
      {
        var p := pixels[i];
        if InBoundingBox(p.x, p.y) {
          SetPixel(p.x as u32, p.y as u32, p.color);
        }
        assert pixels[..i + 1][..i] == pixels[..i];
        i := i + 1;
      }
      assert pixels[..i] == pixels;
    }

    /** `flush`: the whole cycle, ending at the first failed write; the
        planes are only read. */
    method Flush() returns (r: Status<E>)
      requires Valid()
      modifies interface
      ensures interface.Performed(old(interface.log), FlushScript(buffer[..], buffer2[..]), r)
      ensures buffer[..] == old(buffer[..]) && buffer2[..] == old(buffer2[..])
    {
      ghost var spi := interface.spi;
      ghost var a, b, c, d, e := PowerUpScript(), LoadFrameScript(buffer[..], WriteRAM1),
        LoadFrameScript(buffer2[..], WriteRAM2), ActivateScript(), PowerDownScript();
      ghost var l0 := interface.log;
      r := interface.PowerUp();
      if r.Err? {
        Stop(spi, l0, interface.log, a, r, b);
        Stop(spi, l0, interface.log, a + b, r, c);
        Stop(spi, l0, interface.log, a + b + c, r, d);
        Stop(spi, l0, interface.log, a + b + c + d, r, e);
        return;
      }
      ghost var l1 := interface.log;
      r := interface.LoadFrame(buffer[..], WriteRAM1);
      Then(spi, l0, l1, a, interface.log, b, r);
      if r.Err? {
        Stop(spi, l0, interface.log, a + b, r, c);
        Stop(spi, l0, interface.log, a + b + c, r, d);
        Stop(spi, l0, interface.log, a + b + c + d, r, e);
        return;
      }
      ghost var l2 := interface.log;
      r := interface.LoadFrame(buffer2[..], WriteRAM2);
      Then(spi, l0, l2, a + b, interface.log, c, r);
      if r.Err? {
        Stop(spi, l0, interface.log, a + b + c, r, d);
        Stop(spi, l0, interface.log, a + b + c + d, r, e);
        return;
      }
      ghost var l3 := interface.log;
      r := interface.ActivateUpdate();
      Then(spi, l0, l3, a + b + c, interface.log, d, r);
      if r.Err? {
        Stop(spi, l0, interface.log, a + b + c + d, r, e);
        return;
      }
      ghost var l4 := interface.log;
      r := interface.PowerDown();
      Then(spi, l0, l4, a + b + c + d, interface.log, e, r);
    }
  }
}
