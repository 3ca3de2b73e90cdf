/** `drawBoundingBoxes`: the overlay of detection results on a copy of a
    bitmap. For each box, in the order given, one rectangle scaled from
    normalised to pixel coordinates and then the box's class name anchored at
    the rectangle's left and bottom edges. */
module Overlay {
  import opened Platform

  /** A detection: corners in coordinates normalised to the image size, and
      the class name. The detector's other fields are not drawn. */
  datatype BoundingBox = BoundingBox(x1: real, y1: real, x2: real, y2: real, clsName: string)

  /** `RectF(x1 * width, y1 * height, x2 * width, y2 * height)`: the box
      scaled from normalised to pixel coordinates. Scaling by a non-negative
      size keeps the corners in order. */
  function PixelRect(box: BoundingBox, width: int, height: int): (r: RectF)
    ensures 0 <= width && box.x1 <= box.x2 ==> r.left <= r.right
    ensures 0 <= height && box.y1 <= box.y2 ==> r.top <= r.bottom
  {
    ScalingKeepsOrder(box.x1, box.x2, width as real);
    ScalingKeepsOrder(box.y1, box.y2, height as real);
    RectF(box.x1 * width as real, box.y1 * height as real, box.x2 * width as real, box.y2 * height as real)
  }

  /** Scaling by a non-negative size keeps two coordinates in order. */
  lemma ScalingKeepsOrder(a: real, b: real, size: real)
    ensures 0.0 <= size && a <= b ==> a * size <= b * size
  {
    if 0.0 <= size && a <= b {
      assert (b - a) * size >= 0.0;
    }
  }

  /** The two calls made for one box. */
  function BoxCommands(box: BoundingBox, width: int, height: int): seq<DrawCommand>
  {
    var rect := PixelRect(box, width, height);
    [Rect(rect), Text(box.clsName, rect.left, rect.bottom)]
  }

  /** The draw calls for a list of boxes on a `width` x `height` bitmap:
      two per box, in the order of the boxes (see `DrawPlanAt`). */
  function DrawPlan(boxes: seq<BoundingBox>, width: int, height: int): (plan: seq<DrawCommand>)
    ensures |plan| == 2 * |boxes|
    decreases |boxes|
  {
    if boxes == [] then []
    else DrawPlan(boxes[..|boxes| - 1], width, height) + BoxCommands(boxes[|boxes| - 1], width, height)
  }

  /** Box `i` owns calls `2i` and `2i + 1` of the plan: first its rectangle
      in pixels, then its class name anchored at the rectangle's left edge
      and bottom edge. */
  lemma {:induction false} DrawPlanAt(boxes: seq<BoundingBox>, width: int, height: int, i: nat)
    requires i < |boxes|
    ensures DrawPlan(boxes, width, height)[2 * i] == Rect(PixelRect(boxes[i], width, height))
    ensures DrawPlan(boxes, width, height)[2 * i + 1] ==
      Text(boxes[i].clsName, PixelRect(boxes[i], width, height).left, PixelRect(boxes[i], width, height).bottom)
    decreases |boxes|
  {
    var front := boxes[..|boxes| - 1];
    if i < |front| {
      DrawPlanAt(front, width, height, i);
      assert front[i] == boxes[i];
    }
  }

  /** The bitmap `drawBoundingBoxes` returns: the same picture with the plan
      drawn on top of whatever was drawn before. */
  function Overlaid(bitmap: Bitmap, boxes: seq<BoundingBox>): Bitmap
  {
    bitmap.(drawn := bitmap.drawn + DrawPlan(boxes, bitmap.width, bitmap.height))
  }

  /** Draws on a copy: the input bitmap is a value and stays as it was; the
      copy gets the boxes' draw calls appended in input order. */
  method DrawBoundingBoxes(bitmap: Bitmap, boxes: seq<BoundingBox>) returns (result: Bitmap)
    ensures result == Overlaid(bitmap, boxes)
  {
    var mutableBitmap := bitmap.Copy();
    var canvas := new Canvas(mutableBitmap);
    for i := 0 to |boxes|
      invariant canvas.bitmap == Overlaid(mutableBitmap, boxes[..i])
    {
      var box := boxes[i];
      var rect := RectF(box.x1 * mutableBitmap.width as real, box.y1 * mutableBitmap.height as real,
                        box.x2 * mutableBitmap.width as real, box.y2 * mutableBitmap.height as real);
      canvas.DrawRect(rect);
      canvas.DrawText(box.clsName, rect.left, rect.bottom);
      assert boxes[..i + 1][..i] == boxes[..i] && boxes[..i + 1][i] == box;
      assert rect == PixelRect(box, mutableBitmap.width, mutableBitmap.height);
      assert BoxCommands(box, mutableBitmap.width, mutableBitmap.height) == [Rect(rect), Text(box.clsName, rect.left, rect.bottom)];
      assert DrawPlan(boxes[..i + 1], mutableBitmap.width, mutableBitmap.height) ==
        DrawPlan(boxes[..i], mutableBitmap.width, mutableBitmap.height) + [Rect(rect), Text(box.clsName, rect.left, rect.bottom)];
    }
    assert boxes[..|boxes|] == boxes;
    result := canvas.bitmap;
  }

  /** Drawing two lists one after the other draws their concatenation. */
  lemma {:induction false} DrawPlanAppend(a: seq<BoundingBox>, b: seq<BoundingBox>, width: int, height: int)
    ensures DrawPlan(a + b, width, height) == DrawPlan(a, width, height) + DrawPlan(b, width, height)
    decreases |b|
  {
    if b == [] {
      assert a + b == a;
    } else {
      var front := b[..|b| - 1];
      assert (a + b)[..|a + b| - 1] == a + front;
      assert (a + b)[|a + b| - 1] == b[|b| - 1];
      DrawPlanAppend(a, front, width, height);
    }
  }

  /** Overlaying twice equals overlaying both lists at once, in order. */
  lemma OverlaidTwice(bitmap: Bitmap, a: seq<BoundingBox>, b: seq<BoundingBox>)
    ensures Overlaid(Overlaid(bitmap, a), b) == Overlaid(bitmap, a + b)
  {
    DrawPlanAppend(a, b, bitmap.width, bitmap.height);
  }

  /** An empty list of boxes leaves the picture exactly as it was. */
  lemma NoBoxesDrawNothing(bitmap: Bitmap)
    ensures Overlaid(bitmap, []) == bitmap
  {
  }

  /** A box with normalised corners (0 <= x1 <= x2 <= 1, likewise for y)
      maps to a rectangle inside the bitmap, with left <= right and
      top <= bottom, so the label sits on the bitmap too. */
  lemma NormalisedBoxInsideBitmap(box: BoundingBox, width: int, height: int)
    requires 0.0 <= box.x1 <= box.x2 <= 1.0 && 0.0 <= box.y1 <= box.y2 <= 1.0
    requires 0 <= width && 0 <= height
    ensures var r := PixelRect(box, width, height);
      0.0 <= r.left <= r.right <= width as real && 0.0 <= r.top <= r.bottom <= height as real
  {
    HorizontalInside(box, width, height);
    VerticalInside(box, width, height);
  }

  /** The horizontal half of `NormalisedBoxInsideBitmap`. */
  lemma HorizontalInside(box: BoundingBox, width: int, height: int)
    requires 0.0 <= box.x1 <= box.x2 <= 1.0 && 0 <= width
    ensures 0.0 <= PixelRect(box, width, height).left <= PixelRect(box, width, height).right <= width as real
  {
    var r := PixelRect(box, width, height);
    ScaledWithin(box.x1, box.x2, width as real);
    assert r.left == box.x1 * width as real && r.right == box.x2 * width as real;
  }

  /** The vertical half of `NormalisedBoxInsideBitmap`. */
  lemma VerticalInside(box: BoundingBox, width: int, height: int)
    requires 0.0 <= box.y1 <= box.y2 <= 1.0 && 0 <= height
    ensures 0.0 <= PixelRect(box, width, height).top <= PixelRect(box, width, height).bottom <= height as real
  {
    var r := PixelRect(box, width, height);
    ScaledWithin(box.y1, box.y2, height as real);
    assert r.top == box.y1 * height as real && r.bottom == box.y2 * height as real;
  }

  /** One normalised interval scaled by a non-negative size stays ordered
      and within [0, size]. */
  lemma ScaledWithin(a: real, b: real, size: real)
    requires 0.0 <= a <= b <= 1.0 && 0.0 <= size
    ensures 0.0 <= a * size <= b * size <= size
  {
    ScalingKeepsOrder(0.0, a, size);
    ScalingKeepsOrder(a, b, size);
    ScalingKeepsOrder(b, 1.0, size);
  }

  /** A box (0.1, 0.1)-(0.5, 0.5) on a 1000 x 1000 bitmap is the rectangle
      (100, 100)-(500, 500), labelled at (100, 500). */
  lemma ExampleBox(name: string)
    ensures DrawPlan([BoundingBox(0.1, 0.1, 0.5, 0.5, name)], 1000, 1000) ==
      [Rect(RectF(100.0, 100.0, 500.0, 500.0)), Text(name, 100.0, 500.0)]
  {
  }
}
