/**
 * `update_tex`: packing the machine's monochrome display into the streaming
 * texture's pixel buffer, four bytes per pixel, row-major, each pixel the
 * native-order bytes of the "on" or the "off" colour.
 */
module Texture {
  import opened Bytes

  const BYTES_PER_PIXEL: nat := 4

  /** The display as the loop reads it: its size and `get_pixel(x, y)`. */
  datatype DisplayData = DisplayData(width: nat, height: nat, pixel: (nat, nat) -> bool)

  /** The colour of cell `(x, y)`. */
  function ColorAt(dd: DisplayData, colorOn: u32, colorOff: u32, x: nat, y: nat): u32 {
    if dd.pixel(x, y) then colorOn else colorOff
  }

  /** The number of bytes the packed display fills. */
  function FrameSize(dd: DisplayData): nat {
    dd.width * dd.height * BYTES_PER_PIXEL
  }

  /** `(x + y * width) * bytes_per_pixel`: where the bytes of cell `(x, y)` start; they fit in the frame. */
  function PixelIndex(dd: DisplayData, x: nat, y: nat): (i: nat)
    requires x < dd.width && y < dd.height
    ensures i + BYTES_PER_PIXEL <= FrameSize(dd)
  {
    CellBelowArea(dd.width, dd.height, x, y);
    (x + y * dd.width) * BYTES_PER_PIXEL
  }

  /** Byte `j` of cell `(x, y)`. */
  function ByteIndex(dd: DisplayData, x: nat, y: nat, j: nat): (i: nat)
    requires x < dd.width && y < dd.height && j < BYTES_PER_PIXEL
    ensures i < FrameSize(dd)
  {
    PixelIndex(dd, x, y) + j
  }

  /** A cell of a `w` by `h` grid has a row-major number below `w * h`. */
  lemma CellBelowArea(w: nat, h: nat, x: nat, y: nat)
    requires x < w && y < h
    ensures x + y * w < w * h
  {
    assert (y + 1) * w <= h * w by {
      MultiplyMonotonic(y + 1, h, w);
    }
  }

  lemma MultiplyMonotonic(a: nat, b: nat, c: nat)
    requires a <= b
    ensures a * c <= b * c
  {
    assert b * c == a * c + (b - a) * c;
  }

  /** Euclidean division has one quotient and remainder. */
  lemma DivModUnique(n: int, w: int, q: int, r: int)
    requires w > 0 && 0 <= r < w && n == q * w + r
    ensures n / w == q && n % w == r
  {
    var q', r' := n / w, n % w;
    assert n == q' * w + r';
    assert (q' - q) * w == r - r';
    if q' > q {
      MultiplyMonotonic(1, q' - q, w);
    } else if q' < q {
      MultiplyMonotonic(1, q - q', w);
    }
  }

  /** Two distinct cells have byte ranges that do not overlap. */
  lemma CellsDisjoint(dd: DisplayData, x1: nat, y1: nat, x2: nat, y2: nat)
    requires x1 < dd.width && y1 < dd.height && x2 < dd.width && y2 < dd.height
    requires (x1, y1) != (x2, y2)
    ensures PixelIndex(dd, x1, y1) + BYTES_PER_PIXEL <= PixelIndex(dd, x2, y2) ||
            PixelIndex(dd, x2, y2) + BYTES_PER_PIXEL <= PixelIndex(dd, x1, y1)
  {
    var w := dd.width;
    if y1 < y2 {
      MultiplyMonotonic(y1 + 1, y2, w);
      assert (y1 + 1) * w == y1 * w + w;
    } else if y2 < y1 {
      MultiplyMonotonic(y2 + 1, y1, w);
      assert (y2 + 1) * w == y2 * w + w;
    }
  }

  /** Every byte of the frame belongs to some cell: the one `CellOf` names. */
  lemma CellOf(dd: DisplayData, i: nat) returns (x: nat, y: nat, j: nat)
    requires i < FrameSize(dd)
    ensures x < dd.width && y < dd.height && j < BYTES_PER_PIXEL
    ensures ByteIndex(dd, x, y, j) == i
  {
    var w, h := dd.width, dd.height;
    var cell := i / BYTES_PER_PIXEL;
    j := i % BYTES_PER_PIXEL;
    assert cell < w * h;
    assert w > 0;
    x, y := cell % w, cell / w;
    assert cell == y * w + x;
    if y >= h {
      MultiplyMonotonic(h, y, w);
      assert false;
    }
    assert i == cell * BYTES_PER_PIXEL + j;
  }

  /** Byte `i` of the packed frame: byte `i % 4` of the colour of pixel `i / 4` in row-major order. */
  function FrameByte(dd: DisplayData, colorOn: u32, colorOff: u32, order: ByteOrder, i: nat): u8
    requires i < FrameSize(dd)
  {
    var cell := i / BYTES_PER_PIXEL;
    assert dd.width > 0;
    ToNeBytes(order, ColorAt(dd, colorOn, colorOff, cell % dd.width, cell / dd.width))[i % BYTES_PER_PIXEL]
  }

  /**
   * The frame `update_tex` leaves in the buffer: the four bytes of each cell
   * `(x, y)`, from `(x + y * width) * 4` on, are the native bytes of its colour.
   */
  function PackedFrame(dd: DisplayData, colorOn: u32, colorOff: u32, order: ByteOrder): (f: seq<u8>)
    ensures |f| == FrameSize(dd)
    ensures forall x: nat, y: nat, j: nat :: x < dd.width && y < dd.height && j < BYTES_PER_PIXEL ==>
      f[ByteIndex(dd, x, y, j)] == ToNeBytes(order, ColorAt(dd, colorOn, colorOff, x, y))[j]
  {
    var f := seq(FrameSize(dd), i requires 0 <= i < FrameSize(dd) => FrameByte(dd, colorOn, colorOff, order, i));
    forall x: nat, y: nat, j: nat | x < dd.width && y < dd.height && j < BYTES_PER_PIXEL
      ensures f[ByteIndex(dd, x, y, j)] == ToNeBytes(order, ColorAt(dd, colorOn, colorOff, x, y))[j]
    {
      FrameByteOfCell(dd, colorOn, colorOff, order, x, y, j);
    }
    f
  }

  /** The packed byte at `ByteIndex(x, y, j)` is byte `j` of the colour of cell `(x, y)`. */
  lemma FrameByteOfCell(dd: DisplayData, colorOn: u32, colorOff: u32, order: ByteOrder, x: nat, y: nat, j: nat)
    requires x < dd.width && y < dd.height && j < BYTES_PER_PIXEL
    ensures FrameByte(dd, colorOn, colorOff, order, ByteIndex(dd, x, y, j))
      == ToNeBytes(order, ColorAt(dd, colorOn, colorOff, x, y))[j]
  {
    var cell := x + y * dd.width;
    var i := ByteIndex(dd, x, y, j);
    DivModUnique(i, BYTES_PER_PIXEL, cell, j);
    CellNumber(dd.width, x, y);
  }

  /** The bytes of cell `(x, y)` in the packed frame, as one slice. */
  lemma CellBytes(dd: DisplayData, colorOn: u32, colorOff: u32, order: ByteOrder, x: nat, y: nat)
    requires x < dd.width && y < dd.height
    ensures var f, p := PackedFrame(dd, colorOn, colorOff, order), PixelIndex(dd, x, y);
      f[p..p + BYTES_PER_PIXEL] == ToNeBytes(order, ColorAt(dd, colorOn, colorOff, x, y))
  {
    CellSlice(dd, PackedFrame(dd, colorOn, colorOff, order), x, y,
      ToNeBytes(order, ColorAt(dd, colorOn, colorOff, x, y)));
  }

  /** A frame whose bytes of cell `(x, y)` are `bytes`, one by one, holds them as a slice. */
  lemma CellSlice(dd: DisplayData, f: seq<u8>, x: nat, y: nat, bytes: seq<u8>)
    requires x < dd.width && y < dd.height
    requires |f| == FrameSize(dd) && |bytes| == BYTES_PER_PIXEL
    requires forall j :: 0 <= j < BYTES_PER_PIXEL ==> f[ByteIndex(dd, x, y, j)] == bytes[j]
    ensures f[PixelIndex(dd, x, y)..PixelIndex(dd, x, y) + BYTES_PER_PIXEL] == bytes
  {
    var p := PixelIndex(dd, x, y);
    forall j | 0 <= j < BYTES_PER_PIXEL ensures f[p..p + BYTES_PER_PIXEL][j] == bytes[j] {
      assert f[p..p + BYTES_PER_PIXEL][j] == f[ByteIndex(dd, x, y, j)];
    }
  }

  /** Row-major numbering: cell `(x, y)` is number `x + y * w`, and the number gives back the cell. */
  lemma CellNumber(w: nat, x: nat, y: nat)
    requires x < w
    ensures (x + y * w) % w == x && (x + y * w) / w == y
  {
    DivModUnique(x + y * w, w, y, x);
  }

  /** `copy_from_slice` into `buffer[at..at + |bytes|]`. */
  method CopyFromSlice(buffer: array<u8>, at: nat, bytes: seq<u8>)
    requires at + |bytes| <= buffer.Length
    modifies buffer
    ensures forall k :: 0 <= k < |bytes| ==> buffer[at + k] == bytes[k]
    ensures forall i :: 0 <= i < buffer.Length && !(at <= i < at + |bytes|) ==> buffer[i] == old(buffer[i])
  {
    for k := 0 to |bytes|
      invariant forall k' :: 0 <= k' < k ==> buffer[at + k'] == bytes[k']
      invariant forall i :: 0 <= i < buffer.Length && !(at <= i < at + k) ==> buffer[i] == old(buffer[i])
    {
      buffer[at + k] := bytes[k];
    }
  }

  /**
   * `update_tex`: every cell's four bytes are set to the native bytes of
   * `colorOn` if its pixel is set, else of `colorOff`, so the first
   * `width * height * 4` bytes become the packed frame; the bytes after it
   * are left alone.
   */
  method UpdateTex(buffer: array<u8>, dd: DisplayData, colorOn: u32, colorOff: u32, order: ByteOrder)
    requires FrameSize(dd) <= buffer.Length
    modifies buffer
    ensures buffer[..FrameSize(dd)] == PackedFrame(dd, colorOn, colorOff, order)
    ensures buffer[FrameSize(dd)..] == old(buffer[FrameSize(dd)..])
  {
    for x := 0 to dd.width
      invariant forall x': nat, y': nat, j: nat :: x' < x && y' < dd.height && j < BYTES_PER_PIXEL ==>
        buffer[ByteIndex(dd, x', y', j)] == ToNeBytes(order, ColorAt(dd, colorOn, colorOff, x', y'))[j]
      invariant forall i :: FrameSize(dd) <= i < buffer.Length ==> buffer[i] == old(buffer[i])
    {
      for y := 0 to dd.height
        invariant forall x': nat, y': nat, j: nat ::
          (x' < x || (x' == x && y' < y)) && y' < dd.height && j < BYTES_PER_PIXEL ==>
          buffer[ByteIndex(dd, x', y', j)] == ToNeBytes(order, ColorAt(dd, colorOn, colorOff, x', y'))[j]
        invariant forall i :: FrameSize(dd) <= i < buffer.Length ==> buffer[i] == old(buffer[i])
      {
        var colorToCopy := if dd.pixel(x, y) then colorOn else colorOff;
        var pixelIndex := PixelIndex(dd, x, y);
        ghost var before := buffer[..];
        CopyFromSlice(buffer, pixelIndex, ToNeBytes(order, colorToCopy));
        forall x': nat, y': nat, j: nat |
          (x' < x || (x' == x && y' < y)) && y' < dd.height && j < BYTES_PER_PIXEL
          ensures buffer[ByteIndex(dd, x', y', j)] == before[ByteIndex(dd, x', y', j)]
        {
          CellsDisjoint(dd, x', y', x, y);
        }
      }
    }
    ghost var frame := PackedFrame(dd, colorOn, colorOff, order);
    forall i | 0 <= i < FrameSize(dd) ensures buffer[i] == frame[i] {
      var x, y, j := CellOf(dd, i);
    }
  }
}
