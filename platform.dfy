/** Models of the platform classes the activity works with: java.nio's
    ByteBuffer (relative reads only), CameraX's ImageProxy (planes and close),
    and android.graphics' Bitmap, RectF and Canvas, where a bitmap is reduced
    to its size, the camera bytes it was decoded from and the draw calls made
    on it. */
module Platform {

  newtype byte = x: int | 0 <= x < 256

  /** A read-only byte buffer: `data` holds the bytes up to the limit and
      `position` is the index of the next byte a relative read returns. */
  class ByteBuffer {
    const data: seq<byte>
    var position: nat

    ghost predicate Valid()
      reads this
    {
      position <= |data|
    }

    constructor (bytes: seq<byte>)
      ensures Valid() && data == bytes && position == 0
    {
      data := bytes;
      position := 0;
    }

    /** The bytes a relative read has not consumed yet. */
    function Pending(): seq<byte>
      reads this
      requires Valid()
    {
      data[position..]
    }

    /** `remaining()`: how many bytes are left between position and limit. */
    function Remaining(): (n: nat)
      reads this
      requires Valid()
      ensures n == |Pending()|
    {
      |data| - position
    }

    /** Relative bulk `get(dst, offset, length)`: copies the next `length`
        bytes into `dst[offset..offset + length]`, leaves the rest of `dst`
        alone and advances the position past them. The platform throws when
        `length` exceeds what remains or the range leaves `dst`; callers here
        never do either. */
    method Get(dst: array<byte>, offset: nat, length: nat)
      requires Valid()
      requires length <= Remaining()
      requires offset + length <= dst.Length
      modifies this, dst
      ensures Valid()
      ensures position == old(position) + length
      ensures Pending() == old(Pending())[length..]
      ensures dst[..] == old(dst[..offset]) + old(Pending())[..length] + old(dst[offset + length..])
    {
      ghost var src := Pending();
      var i := 0;
      while i < length
        invariant 0 <= i <= length
        invariant position == old(position)
        invariant forall k :: 0 <= k < offset ==> dst[k] == old(dst[k])
        invariant forall k :: offset <= k < offset + i ==> dst[k] == src[k - offset]
        invariant forall k :: offset + length <= k < dst.Length ==> dst[k] == old(dst[k])
      {
        dst[offset + i] := data[position + i];
        i := i + 1;
      }
      position := position + length;
    }
  }

  /** A camera frame handed to the analyzer. A YUV_420_888 frame has three
      planes (Y, U, V) backed by three distinct buffers; `closeCount` records
      how often the frame was handed back to the camera. */
  class ImageProxy {
    const planes: seq<ByteBuffer>
    const width: int
    const height: int
    const rotationDegrees: int
    var closeCount: nat

    ghost predicate Valid()
      reads this, planes
    {
      |planes| == 3 &&
      planes[0] != planes[1] && planes[0] != planes[2] && planes[1] != planes[2] &&
      forall i :: 0 <= i < |planes| ==> planes[i].Valid()
    }

    constructor (y: ByteBuffer, u: ByteBuffer, v: ByteBuffer, width: int, height: int, rotationDegrees: int)
      requires y.Valid() && u.Valid() && v.Valid()
      requires y != u && y != v && u != v
      ensures Valid() && planes == [y, u, v] && closeCount == 0
      ensures this.width == width && this.height == height && this.rotationDegrees == rotationDegrees
    {
      planes := [y, u, v];
      this.width := width;
      this.height := height;
      this.rotationDegrees := rotationDegrees;
      closeCount := 0;
    }

    /** `close()`: returns the frame to the camera. */
    method Close()
      modifies this`closeCount
      ensures closeCount == old(closeCount) + 1
    {
      closeCount := closeCount + 1;
    }
  }

  /** `RectF(left, top, right, bottom)`, stored as given (never normalised). */
  datatype RectF = RectF(left: real, top: real, right: real, bottom: real)

  /** One call on a canvas: `drawRect(rect, paint)` or `drawText(text, x, y, paint)`.
      Paints (colour, stroke, text size) are not part of the model. */
  datatype DrawCommand = Rect(rect: RectF) | Text(text: string, x: real, y: real)

  /** A bitmap as a value: its size, the NV21 bytes its pixels were decoded
      from, and the draw calls made on it after decoding, oldest first. */
  datatype Bitmap = Bitmap(width: int, height: int, source: seq<byte>, drawn: seq<DrawCommand>)
  {
    /** `copy(ARGB_8888, true)`: a new mutable bitmap with the same picture. */
    function Copy(): (c: Bitmap)
      ensures c.width == width && c.height == height && c.source == source && c.drawn == drawn
    {
      this
    }
  }

  /** A canvas drawing onto one bitmap; each call appends to its draw list. */
  class Canvas {
    var bitmap: Bitmap

    constructor (target: Bitmap)
      ensures bitmap == target
    {
      bitmap := target;
    }

    method DrawRect(rect: RectF)
      modifies this
      ensures bitmap == old(bitmap).(drawn := old(bitmap).drawn + [Rect(rect)])
    {
      bitmap := bitmap.(drawn := bitmap.drawn + [Rect(rect)]);
    }

    method DrawText(text: string, x: real, y: real)
      modifies this
      ensures bitmap == old(bitmap).(drawn := old(bitmap).drawn + [Text(text, x, y)])
    {
      bitmap := bitmap.(drawn := bitmap.drawn + [Text(text, x, y)]);
    }
  }
}
