/** The monochrome driver `Ssd1680` (src/ssd1680.rs): one packed frame
    buffer, rotation-aware pixel addressing, and the flush sequences
    built on the SPI interface. */
module Monochrome {
  import opened Lib
  import opened Commands
  import opened Display
  import opened Interface

  /** embedded-graphics' `BinaryColor`: On draws (clears the bit), Off
      erases (sets the bit), since the buffer is inverted. */
  datatype BinaryColor = On | Off

  /** The byte index and mask `set_pixel` computes for logical (x, y):
      `ny / 8 + 16 * (DISPLAY_WIDTH - 1 - nx)` and `0x80 >> (ny % 8)`,
      in `u32` arithmetic that wraps as in a release build. */
  function PixelAddress(rotation: DisplayRotation, x: u32, y: u32): BitAddress
  {
    var (nx, ny) := FindRotation(x, y, DISPLAY_HEIGHT, DISPLAY_WIDTH, rotation);
    BitAddress(WrapAdd(ny / 8, WrapMul(ROW_BYTES, WrapSub(DISPLAY_WIDTH - 1, nx))), Mask(ny % 8))
  }

  /** One byte after drawing into the bit `mask`: On clears the bit and
      Off sets it. */
  function PaintByte(b: bv8, mask: bv8, color: BinaryColor): bv8
  {
    match color
    case On => b & !mask
    case Off => b | mask
  }

  /** Drawing into a byte writes its masked bit, clear for On and set
      for Off (so, by `WriteBitEffect`, every other bit stays as it
      was). */
  lemma PaintByteEffect(b: bv8, mask: bv8, color: BinaryColor)
    ensures PaintByte(b, mask, color) == WriteBit(b, mask, color == Off)
  {
    match color
    case On =>
      assert !(color == Off);
    case Off =>
  }

  /** The buffer after drawing at address `a`: an address past the end
      is ignored, otherwise only the addressed byte changes. */
  function PaintAt(buffer: seq<bv8>, a: BitAddress, color: BinaryColor): seq<bv8>
  {
    if a.index >= |buffer| then buffer
    else buffer[a.index := PaintByte(buffer[a.index], a.mask, color)]
  }

  /** The buffer after `set_pixel(x, y, color)`. */
  function Paint(buffer: seq<bv8>, rotation: DisplayRotation, x: u32, y: u32, color: BinaryColor): seq<bv8>
  {
    PaintAt(buffer, PixelAddress(rotation, x, y), color)
  }

  /** Reading a pixel back from the buffer: None when its address is
      past the end, On when its bit is clear, Off when it is set. */
  function ReadPixel(buffer: seq<bv8>, rotation: DisplayRotation, x: u32, y: u32): Option<BinaryColor>
  {
    var a := PixelAddress(rotation, x, y);
    if a.index >= |buffer| then None
    else Some(if buffer[a.index] & a.mask == 0 then On else Off)
  }

  /** Drawing at an address changes at most one byte: nothing when the
      index is out of range, otherwise only the addressed byte, which
      becomes `PaintByte` of its old value. */
  lemma PaintAtEffect(buffer: seq<bv8>, a: BitAddress, color: BinaryColor)
    ensures |PaintAt(buffer, a, color)| == |buffer|
    ensures a.index >= |buffer| ==> PaintAt(buffer, a, color) == buffer
    ensures forall j :: 0 <= j < |buffer| && j != a.index ==> PaintAt(buffer, a, color)[j] == buffer[j]
    ensures a.index < |buffer| ==> PaintAt(buffer, a, color)[a.index] == PaintByte(buffer[a.index], a.mask, color)
  {
  }

  /** Writing a pixel twice leaves what the second write alone leaves:
      the last colour wins, and repeating a write changes nothing. */
  lemma PaintLastWins(buffer: seq<bv8>, rotation: DisplayRotation, x: u32, y: u32, first: BinaryColor, second: BinaryColor)
    ensures Paint(Paint(buffer, rotation, x, y, first), rotation, x, y, second) == Paint(buffer, rotation, x, y, second)
  {
  }

  /** A pixel whose address is inside the buffer reads back as the
      colour just written to it. */
  lemma ReadBack(buffer: seq<bv8>, rotation: DisplayRotation, x: u32, y: u32, color: BinaryColor)
    requires PixelAddress(rotation, x, y).index < |buffer|
    ensures ReadPixel(Paint(buffer, rotation, x, y, color), rotation, x, y) == Some(color)
  {
  }

  /** Unrotated, every pixel of the advertised 250 x 122 drawing area
      lands in the buffer, at byte y / 8 + 16 * (249 - x), bit y % 8. */
  lemma Rotate0Address(x: u32, y: u32)
    requires InBoundingBox(x, y)
    ensures PixelAddress(Rotate0, x, y) == BitAddress(y / 8 + 16 * (249 - x), Mask(y % 8))
    ensures PixelAddress(Rotate0, x, y).index < BUF_SIZE
  {
  }

  /** Unrotated, distinct pixels of the drawing area have distinct
      addresses (byte index or mask differ). */
  lemma Rotate0Injective(x1: u32, y1: u32, x2: u32, y2: u32)
    requires InBoundingBox(x1, y1) && InBoundingBox(x2, y2)
    requires PixelAddress(Rotate0, x1, y1) == PixelAddress(Rotate0, x2, y2)
    ensures x1 == x2 && y1 == y2
  {
    Rotate0Address(x1, y1);
    Rotate0Address(x2, y2);
    var q1, q2 := y1 / 8, y2 / 8;
    var k1, k2 := 249 - x1, 249 - x2;
    assert q1 + 16 * k1 == q2 + 16 * k2;
    assert x1 == x2 && q1 == q2;
    MaskInjective(y1 % 8, y2 % 8);
  }

  /** Unrotated, writing one pixel of the drawing area leaves every other
      pixel of the area reading as before. */
  lemma Rotate0PaintKeepsOthers(buffer: seq<bv8>, x: u32, y: u32, x2: u32, y2: u32, color: BinaryColor)
    requires InBoundingBox(x, y) && InBoundingBox(x2, y2) && (x, y) != (x2, y2)
    ensures ReadPixel(Paint(buffer, Rotate0, x2, y2, color), Rotate0, x, y) == ReadPixel(buffer, Rotate0, x, y)
  {
    var a, a2 := PixelAddress(Rotate0, x, y), PixelAddress(Rotate0, x2, y2);
    if a == a2 {
      Rotate0Injective(x, y, x2, y2);
    }
    if a.index == a2.index && a.index < |buffer| {
      Rotate0Address(x, y);
      Rotate0Address(x2, y2);
      MasksDisjoint(y % 8, y2 % 8);
      PaintByteEffect(buffer[a.index], a2.mask, color);
      WriteBitKeepsOthers(buffer[a.index], a2.mask, color == Off, a.mask);
    }
  }

  /** Rotated by 90 degrees, two pixels of the drawing area collide:
      (121, 1) and (249, 0) share a byte and a bit. */
  lemma Rotate90Collision()
    ensures InBoundingBox(121, 1) && InBoundingBox(249, 0)
    ensures PixelAddress(Rotate90, 121, 1) == PixelAddress(Rotate90, 249, 0)
  {
  }

  /** Rotated by 270 degrees, two pixels of the drawing area collide:
      (128, 0) and (0, 1) share a byte and a bit. */
  lemma Rotate270Collision()
    ensures InBoundingBox(128, 0) && InBoundingBox(0, 1)
    ensures PixelAddress(Rotate270, 128, 0) == PixelAddress(Rotate270, 0, 1)
  {
  }

  /** Rotated by 180 degrees, every pixel of the drawing area with
      x >= 121 is dropped: column 121 lands at byte 3984 + (249 - y) / 8,
      at least 4000, and for x >= 122 `height - 1 - x` underflows and the
      wrapped index is past the end of the buffer as well. */
  lemma Rotate180DropsWide(buffer: seq<bv8>, x: u32, y: u32, color: BinaryColor)
    requires InBoundingBox(x, y) && x >= DISPLAY_HEIGHT - 1 && |buffer| == BUF_SIZE
    ensures PixelAddress(Rotate180, x, y).index >= BUF_SIZE
    ensures Paint(buffer, Rotate180, x, y, color) == buffer
  {
    var (nx, ny) := FindRotation(x, y, DISPLAY_HEIGHT, DISPLAY_WIDTH, Rotate180);
    if x == DISPLAY_HEIGHT - 1 {
      assert nx == 0;
    } else {
      assert nx == 121 - x + U32_MODULUS;
    }
    assert WrapSub(DISPLAY_WIDTH - 1, nx) == 128 + x;
    assert WrapMul(ROW_BYTES, 128 + x) == 16 * (128 + x);
    assert ny == 249 - y;
    var a := PixelAddress(Rotate180, x, y);
    assert a.index == ny / 8 + 16 * (128 + x);
  }

  /** The buffer of a fresh driver after drawing the origin: only the
      top bit of byte 3984 (column 249 from the right edge, row byte 0)
      is cleared. */
  lemma OriginOnFreshBuffer()
    ensures Paint(seq(BUF_SIZE, _ => 0xFF), Rotate0, 0, 0, On) == seq(BUF_SIZE, _ => 0xFF)[3984 := 0x7F]
  {
    assert PixelAddress(Rotate0, 0, 0) == BitAddress(3984, 0x80);
  }

  /** `draw_iter`: each pixel inside the bounding box is drawn with
      `set_pixel`, in order; pixels outside it are skipped. */
  function Draw(buffer: seq<bv8>, rotation: DisplayRotation, pixels: seq<Pixel<BinaryColor>>): (r: seq<bv8>)
    ensures |r| == |buffer|
    decreases |pixels|
  {
    if pixels == [] then buffer
    else
      var before := Draw(buffer, rotation, pixels[..|pixels| - 1]);
      var p := pixels[|pixels| - 1];
      if InBoundingBox(p.x, p.y) then Paint(before, rotation, p.x as u32, p.y as u32, p.color) else before
  }

  /** Unrotated, after `draw_iter` a pixel of the drawing area reads back
      as the colour of the last pixel drawn at its position. */
  lemma {:induction false} DrawLastWins(buffer: seq<bv8>, pixels: seq<Pixel<BinaryColor>>, j: nat)
    requires |buffer| == BUF_SIZE
    requires j < |pixels| && InBoundingBox(pixels[j].x, pixels[j].y)
    requires forall k :: j < k < |pixels| ==> (pixels[k].x, pixels[k].y) != (pixels[j].x, pixels[j].y)
    ensures ReadPixel(Draw(buffer, Rotate0, pixels), Rotate0, pixels[j].x as u32, pixels[j].y as u32) == Some(pixels[j].color)
    decreases |pixels|
  {
    var n := |pixels|;
    var p, q := pixels[j], pixels[n - 1];
    var init := pixels[..n - 1];
    var before := Draw(buffer, Rotate0, init);
    Rotate0Address(p.x as u32, p.y as u32);
    if j == n - 1 {
      ReadBack(before, Rotate0, p.x as u32, p.y as u32, p.color);
    } else {
      assert init[j] == p;
      DrawLastWins(buffer, init, j);
      if InBoundingBox(q.x, q.y) {
        Rotate0PaintKeepsOthers(before, p.x as u32, p.y as u32, q.x as u32, q.y as u32, q.color);
      }
    }
  }

  /** Unrotated, after `draw_iter` a pixel of the drawing area that no
      drawn pixel addresses reads as it did before. */
  lemma {:induction false} DrawKeepsUndrawn(buffer: seq<bv8>, pixels: seq<Pixel<BinaryColor>>, x: u32, y: u32)
    requires |buffer| == BUF_SIZE
    requires InBoundingBox(x, y)
    requires forall k :: 0 <= k < |pixels| ==> (pixels[k].x as int, pixels[k].y as int) != (x as int, y as int)
    ensures ReadPixel(Draw(buffer, Rotate0, pixels), Rotate0, x, y) == ReadPixel(buffer, Rotate0, x, y)
    decreases |pixels|
  {
    if pixels != [] {
      var n := |pixels|;
      var q := pixels[n - 1];
      var init := pixels[..n - 1];
      assert forall k :: 0 <= k < |init| ==> init[k] == pixels[k];
      DrawKeepsUndrawn(buffer, init, x, y);
      if InBoundingBox(q.x, q.y) {
        Rotate0PaintKeepsOthers(Draw(buffer, Rotate0, init), x, y, q.x as u32, q.y as u32, q.color);
      }
    }
  }

  /* ---- Flush sequences. ---- */

  /** `flush_display`: the frame into RAM 1. */
  function FlushDisplayScript(buffer: seq<bv8>): seq<Event>
  {
    LoadFrameScript(buffer, WriteRAM1)
  }

  /** `flush_update`: the refresh. */
  function FlushUpdateScript(): seq<Event>
  {
    ActivateScript()
  }

  /** `flush`: power up, load the frame, refresh, power down. */
  function FlushScript(buffer: seq<bv8>): seq<Event>
  {
    PowerUpScript() + FlushDisplayScript(buffer) + FlushUpdateScript() + PowerDownScript()
  }

  /** After `power_up`, `flush` sends RAM counters (1, 0), WriteRAM1
      followed by the whole buffer as one data write, a busy wait,
      DispCtrl2 [0xF4], MasterActivate, a busy wait, and Sleep [0x01]. */
  lemma FlushContents(buffer: seq<bv8>)
    ensures FlushScript(buffer) == PowerUpScript()
      + [Dc(false), Write([0x4E]), Dc(true), Write([0x01]), Dc(false), Write([0x4F]), Dc(true), Write([0x00, 0x00]),
         Dc(false), Write([0x24]), Dc(true), Write(buffer), WaitBusyLow]
      + [Dc(false), Write([0x22]), Dc(true), Write([0xF4]), Dc(false), Write([0x20]), WaitBusyLow]
      + [Dc(false), Write([0x10]), Dc(true), Write([0x01])]
  {
    LoadFrameContents(buffer, WriteRAM1);
    var zero: u8 := 0;
    ScriptContents(Sleep, [0x01], 1, zero);
  }

  /** `Ssd1680`: the frame buffer, the rotation and the interface. */
  class Ssd1680<E> {
    const buffer: array<bv8>
    const rotation: DisplayRotation
    const interface: SpiInterface<E>

    ghost predicate Valid()
      reads this
    {
      buffer.Length == BUF_SIZE
    }

    /** `Ssd1680::new`: every byte 0xFF, i.e. every pixel Off. */
    constructor (spi: Device<E>, rotation: DisplayRotation)
      ensures Valid() && fresh(buffer) && fresh(interface)
      ensures this.rotation == rotation && interface.spi == spi && interface.log == []
      ensures buffer[..] == seq(BUF_SIZE, _ => 0xFF)
    {
      interface := new SpiInterface(spi);
      this.rotation := rotation;
      buffer := new bv8[BUF_SIZE](_ => 0xFF);
    }

    /** `set_pixel`. */
    method SetPixel(x: u32, y: u32, color: BinaryColor)
      requires Valid()
      modifies buffer
      ensures buffer[..] == Paint(old(buffer[..]), rotation, x, y, color)
    {
      var a := PixelAddress(rotation, x, y);
      if a.index >= buffer.Length {
        return;
      }
      ghost var before := buffer[..];
      buffer[a.index] := PaintByte(buffer[a.index], a.mask, color);
      assert buffer[..] == PaintAt(before, a, color);
    }

    /** `draw_iter`, over a finite sequence of pixels. */
    method DrawIter(pixels: seq<Pixel<BinaryColor>>)
      requires Valid()
      modifies buffer
      ensures buffer[..] == Draw(old(buffer[..]), rotation, pixels)
    {
      var i := 0;
      while i < |pixels|
        invariant i <= |pixels|
        invariant buffer[..] == Draw(old(buffer[..]), rotation, pixels[..i])
      {
        var p := pixels[i];
        if InBoundingBox(p.x, p.y) {
          SetPixel(p.x as u32, p.y as u32, p.color);
        }
        assert pixels[..i + 1][..i] == pixels[..i];
        i := i + 1;
      }
      assert pixels[..i] == pixels;
    }

    /** `power_up`. */
    method PowerUp() returns (r: Status<E>)
      modifies interface
      ensures interface.Performed(old(interface.log), PowerUpScript(), r)
    {
      r := interface.PowerUp();
    }

    /** `power_down`. */
    method PowerDown() returns (r: Status<E>)
      modifies interface
      ensures interface.Performed(old(interface.log), PowerDownScript(), r)
    {
      r := interface.PowerDown();
    }

    /** `flush_display`. */
    method FlushDisplay() returns (r: Status<E>)
      modifies interface
      ensures interface.Performed(old(interface.log), FlushDisplayScript(buffer[..]), r)
    {
      r := interface.LoadFrame(buffer[..], WriteRAM1);
    }

    /** `flush_update`. */
    method FlushUpdate() returns (r: Status<E>)
      modifies interface
      ensures interface.Performed(old(interface.log), FlushUpdateScript(), r)
    {
      r := interface.ActivateUpdate();
    }

    /** `flush`: the whole cycle, ending at the first failed write; the
        buffer is only read. */
    method Flush() returns (r: Status<E>)
      requires Valid()
      modifies interface
      ensures interface.Performed(old(interface.log), FlushScript(buffer[..]), r)
      ensures buffer[..] == old(buffer[..])
    {
      ghost var spi := interface.spi;
      ghost var a, b, c, d := PowerUpScript(), FlushDisplayScript(buffer[..]), FlushUpdateScript(), PowerDownScript();
      ghost var l0 := interface.log;
      r := interface.PowerUp();
      if r.Err? {
        Stop(spi, l0, interface.log, a, r, b);
        Stop(spi, l0, interface.log, a + b, r, c);
        Stop(spi, l0, interface.log, a + b + c, r, d);
        return;
      }
      ghost var l1 := interface.log;
      r := interface.LoadFrame(buffer[..], WriteRAM1);
      Then(spi, l0, l1, a, interface.log, b, r);
      if r.Err? {
        Stop(spi, l0, interface.log, a + b, r, c);
        Stop(spi, l0, interface.log, a + b + c, r, d);
        return;
      }
      ghost var l2 := interface.log;
      r := interface.ActivateUpdate();
      Then(spi, l0, l2, a + b, interface.log, c, r);
      if r.Err? {
        Stop(spi, l0, interface.log, a + b + c, r, d);
        return;
      }
      ghost var l3 := interface.log;
      r := interface.PowerDown();
      Then(spi, l0, l3, a + b + c, interface.log, d, r);
    }
  }
}
