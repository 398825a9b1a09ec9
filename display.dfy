/** Display rotation and the logical-to-physical coordinate map
    (src/display.rs), plus the drawing-target geometry both drivers
    advertise. */
module Display {
  import opened Lib

  /** `DisplayRotation`: no rotation, or 90, 180 or 270 degrees clockwise. */
  datatype DisplayRotation = Rotate0 | Rotate90 | Rotate180 | Rotate270

  /** `find_rotation`: the physical (nx, ny) of logical (x, y), with the
      `u32` subtractions wrapping as in a release build. */
  function FindRotation(x: u32, y: u32, height: u32, width: u32, rotation: DisplayRotation): (u32, u32)
  {
    match rotation
    case Rotate0 => (x, y)
    case Rotate90 => (y, WrapSub(WrapSub(width, 1), x))
    case Rotate180 => (WrapSub(WrapSub(height, 1), x), WrapSub(WrapSub(width, 1), y))
    case Rotate270 => (WrapSub(WrapSub(width, 1), y), x)
  }

  /** The inputs on which no subtraction of `find_rotation` underflows; a
      debug build panics on all others. */
  predicate NoUnderflow(x: u32, y: u32, height: u32, width: u32, rotation: DisplayRotation)
  {
    match rotation
    case Rotate0 => true
    case Rotate90 => x < width
    case Rotate180 => x < height && y < width
    case Rotate270 => y < width
  }

  /** On its no-underflow domain each rotation computes the textbook
      formula exactly, and the subtracted coordinate stays below the
      dimension it was subtracted from. */
  lemma RotationExact(x: u32, y: u32, height: u32, width: u32, rotation: DisplayRotation)
    requires NoUnderflow(x, y, height, width, rotation)
    ensures var (nx, ny) := FindRotation(x, y, height, width, rotation);
      match rotation
      case Rotate0 => nx == x && ny == y
      case Rotate90 => nx == y && ny == width - 1 - x && ny < width
      case Rotate180 => nx == height - 1 - x && ny == width - 1 - y && nx < height && ny < width
      case Rotate270 => nx == width - 1 - y && ny == x && nx < width
  {
  }

  /** Rotating 90 degrees and then 270 degrees (and the other way round)
      gives back the original coordinates. */
  lemma QuarterTurnsCancel(x: u32, y: u32, height: u32, width: u32)
    ensures var (ax, ay) := FindRotation(x, y, height, width, Rotate90);
      FindRotation(ax, ay, height, width, Rotate270) == (x, y)
    ensures var (px, py) := FindRotation(x, y, height, width, Rotate270);
      FindRotation(px, py, height, width, Rotate90) == (x, y)
  {
  }

  /** Rotating 180 degrees twice gives back the original coordinates. */
  lemma HalfTurnInvolution(x: u32, y: u32, height: u32, width: u32)
    ensures var (ax, ay) := FindRotation(x, y, height, width, Rotate180);
      FindRotation(ax, ay, height, width, Rotate180) == (x, y)
  {
  }

  /** Each rotation maps distinct logical coordinates to distinct
      physical ones. */
  lemma RotationInjective(x1: u32, y1: u32, x2: u32, y2: u32, height: u32, width: u32, rotation: DisplayRotation)
    requires FindRotation(x1, y1, height, width, rotation) == FindRotation(x2, y2, height, width, rotation)
    ensures x1 == x2 && y1 == y2
  {
  }

  /** Where a pixel lives in a packed frame buffer: a byte index and
      the one-bit mask inside that byte. */
  datatype BitAddress = BitAddress(index: u32, mask: bv8)

  /** `0x80 >> k`: bit k of a byte, counted from the most significant
      end. */
  function Mask(k: nat): (m: bv8)
    requires k < 8
    ensures m != 0 && m & (m - 1) == 0
  {
    (0x80 as bv8) >> k
  }

  /** Distinct bit positions give distinct masks, so the mask determines
      the position it was made from. */
  lemma MaskInjective(j: nat, k: nat)
    requires j < 8 && k < 8 && Mask(j) == Mask(k)
    ensures j == k
  {
    assert Mask(0) == 0x80 && Mask(1) == 0x40 && Mask(2) == 0x20 && Mask(3) == 0x10;
    assert Mask(4) == 0x08 && Mask(5) == 0x04 && Mask(6) == 0x02 && Mask(7) == 0x01;
  }

  /** Masks of distinct bit positions share no bit. */
  lemma MasksDisjoint(j: nat, k: nat)
    requires j < 8 && k < 8 && j != k
    ensures Mask(j) & Mask(k) == 0
  {
    assert Mask(0) == 0x80 && Mask(1) == 0x40 && Mask(2) == 0x20 && Mask(3) == 0x10;
    assert Mask(4) == 0x08 && Mask(5) == 0x04 && Mask(6) == 0x02 && Mask(7) == 0x01;
  }

  /** The byte `b` with the bits of `m` set (`b | m`) or cleared
      (`b & !m`). */
  function WriteBit(b: bv8, m: bv8, on: bool): bv8
  {
    if on then b | m else b & !m
  }

  /** `WriteBit` changes only the bits of the mask, and leaves them as
      asked. */
  lemma WriteBitEffect(b: bv8, m: bv8, on: bool)
    ensures WriteBit(b, m, on) & !m == b & !m
    ensures WriteBit(b, m, on) & m == (if on then m else 0)
  {
  }

  /** `WriteBit` leaves the bits of any mask disjoint from `m` as they
      were. */
  lemma WriteBitKeepsOthers(b: bv8, m: bv8, on: bool, other: bv8)
    requires m & other == 0
    ensures WriteBit(b, m, on) & other == b & other
  {
  }

  /** Writing the bits of a mask twice leaves what the second write
      alone leaves. */
  lemma WriteBitLastWins(b: bv8, m: bv8, first: bool, second: bool)
    ensures WriteBit(WriteBit(b, m, first), m, second) == WriteBit(b, m, second)
  {
  }

  /** An embedded-graphics `Pixel`: an `i32` position and a colour. */
  datatype Pixel<C> = Pixel(x: i32, y: i32, color: C)

  /** Membership of the bounding box both drivers advertise: the origin
      and a DISPLAY_WIDTH x DISPLAY_HEIGHT size, whatever the rotation. */
  predicate InBoundingBox(x: int, y: int)
  {
    0 <= x < DISPLAY_WIDTH && 0 <= y < DISPLAY_HEIGHT
  }
}
