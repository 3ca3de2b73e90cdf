/** The activity's own state and callbacks: the frame gate fields and the
    analyzer callback `processImageProxy`, the body of the detection
    coroutine it launches, and the detector listener callbacks `onDetect`
    and `onEmptyDetect`, which update the published image. Coroutine hops
    are taken to run to completion one at a time, in the order called. */
module Activity {
  import opened Platform
  import FrameGate
  import Nv21
  import Overlay

  datatype Option<T> = None | Some(value: T)

  /** The published image after `onDetect(boxes)`: nothing when nothing is
      published, otherwise the published bitmap with the boxes drawn on a copy. */
  function AfterDetect(image: Option<Bitmap>, boxes: seq<Overlay.BoundingBox>): (r: Option<Bitmap>)
    ensures r.Some? <==> image.Some?
    ensures image.Some? ==>
      r.value.width == image.value.width && r.value.height == image.value.height &&
      r.value.source == image.value.source &&
      |r.value.drawn| == |image.value.drawn| + 2 * |boxes| &&
      r.value.drawn[..|image.value.drawn|] == image.value.drawn
  {
    match image
    case None => None
    case Some(bitmap) => Some(Overlay.Overlaid(bitmap, boxes))
  }

  /** Two `onDetect` callbacks with no new frame published in between draw
      both lists of boxes on the same picture, the second on top. */
  lemma DetectionsAccumulate(image: Option<Bitmap>, first: seq<Overlay.BoundingBox>, second: seq<Overlay.BoundingBox>)
    ensures AfterDetect(AfterDetect(image, first), second) == AfterDetect(image, first + second)
  {
    if image.Some? {
      Overlay.OverlaidTwice(image.value, first, second);
    }
  }

  class MainActivity {
    /** The bitmap shown on screen, if any. */
    var image: Option<Bitmap>
    var lastProcessedTime: int
    var firstTime: bool

    /** The frame gate's part of the activity state. */
    function Gate(): FrameGate.GateState
      reads this
    {
      FrameGate.GateState(firstTime, lastProcessedTime)
    }

    constructor ()
      ensures image == None && Gate() == FrameGate.Initial
    {
      image := None;
      lastProcessedTime := 0;
      firstTime := true;
    }

    /** The analyzer callback for one camera frame, with the clock reading
        taken on entry passed in as `currentTime`. Returns the decision taken,
        the ordered side effects, and the bitmap handed to the detection
        coroutine when the frame is admitted. Two platform assumptions are
        built in: `toBitmap()` is the activity's own extension rather than the
        member later CameraX versions declare on `ImageProxy`, and
        `planes[i].buffer` is the same buffer object on every access. Under
        both, on the first frame the warm-up conversion consumes planes 0 and
        2, so an admitted first frame's bitmap is packed from nothing. */
    method ProcessImageProxy(imageProxy: ImageProxy, currentTime: int)
      returns (decision: FrameGate.Decision, effects: seq<FrameGate.Effect>, dispatched: Option<Bitmap>)
      requires imageProxy.Valid()
      modifies this`firstTime, this`lastProcessedTime, imageProxy`closeCount, imageProxy.planes[0], imageProxy.planes[2]
      ensures imageProxy.Valid()
      ensures decision == FrameGate.Decide(old(Gate()), currentTime)
      ensures Gate() == FrameGate.Next(old(Gate()), currentTime)
      ensures effects == FrameGate.Effects(decision, currentTime)
      ensures imageProxy.closeCount == old(imageProxy.closeCount) + 1
      ensures image == old(image) && unchanged(imageProxy.planes[1])
      ensures !decision.warmUp && !decision.admit ==> unchanged(imageProxy.planes[0], imageProxy.planes[2])
      ensures decision.warmUp || decision.admit ==>
        imageProxy.planes[0].Pending() == [] && imageProxy.planes[2].Pending() == []
      ensures dispatched.Some? <==> decision.admit
      ensures decision.admit && decision.warmUp ==>
        dispatched.value == Bitmap(imageProxy.width, imageProxy.height, [], [])
      ensures decision.admit && !decision.warmUp ==>
        dispatched.value == Bitmap(imageProxy.width, imageProxy.height,
                                   old(imageProxy.planes[0].Pending()) + old(imageProxy.planes[2].Pending()), [])
    {
      var warmedUp, admitted := false, false;
      effects, dispatched := [], None;
      if firstTime {
        effects := effects + [FrameGate.Sleep(FrameGate.WarmUpMs)];
        var maskInput := Nv21.ToBitmap(imageProxy);
        effects := effects + [FrameGate.ConvertFrame, FrameGate.LaunchMaskStub];
        firstTime := false;
        warmedUp := true;
      }
      if currentTime - lastProcessedTime >= FrameGate.MinIntervalMs {
        lastProcessedTime := currentTime;
        var bitmap := Nv21.ToBitmap(imageProxy);
        effects := effects + [FrameGate.ConvertFrame, FrameGate.LaunchDetection(currentTime)];
        dispatched := Some(bitmap);
        admitted := true;
      }
      imageProxy.Close();
      effects := effects + [FrameGate.CloseFrame];
      decision := FrameGate.Decision(warmedUp, admitted);
    }

    /** The coroutine an admitted frame launches: the detector runs on the
        bitmap, then the bitmap becomes the published image. When the
        detector throws, the exception is logged and nothing is published. */
    method RunDetection(bitmap: Bitmap, detectorThrew: bool)
      modifies this`image
      ensures image == if detectorThrew then old(image) else Some(bitmap)
    {
      if !detectorThrew {
        image := Some(bitmap);
      }
    }

    /** `onDetect`: draws the boxes on a copy of the published bitmap and
        publishes the copy; does nothing when no bitmap is published. */
    method OnDetect(boundingBoxes: seq<Overlay.BoundingBox>)
      modifies this`image
      ensures image == AfterDetect(old(image), boundingBoxes)
    {
      if image.Some? {
        var updatedBitmap := Overlay.DrawBoundingBoxes(image.value, boundingBoxes);
        image := Some(updatedBitmap);
      }
    }

    /** `onEmptyDetect`: only logs. */
    method OnEmptyDetect()
      ensures image == old(image)
    {
    }
  }
}
