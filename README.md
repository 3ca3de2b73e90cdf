# Frame pipeline of the YOLOv8 Android activity, modelled in Dafny

The app's `MainActivity` receives camera frames from CameraX, lets at most one
frame through every five seconds, converts it to a bitmap and hands it to a
TFLite detector. The detector's callbacks then draw the detected boxes on the
published image. This project models the sequential logic inside that activity:

- **Frame gate** (`processImageProxy`). The activity keeps two fields,
  `firstTime` and `lastProcessedTime`. The first frame runs a one-time warm-up
  branch: sleep 30 s, convert the frame, launch an empty coroutine. The branch
  then falls through to the interval check. A frame is admitted when
  `currentTime - lastProcessedTime >= 5000`. An admitted frame is converted and
  handed to a detection coroutine, and `lastProcessedTime` becomes its time.
  Every frame is closed at the end. `FrameGate` states this as pure functions:
  `Decide`, `Next` and `Effects` (the ordered side effects). `Run` and `Trace`
  apply them to a stream of timestamps, and lemmas state what holds over whole
  streams. `Activity.MainActivity.ProcessImageProxy` is the imperative method,
  over the real fields and the frame object, proved against those functions.
- **NV21 packing** (the first half of `toBitmap`). One byte array of size
  `ySize + vuSize` is filled with what remains of plane 0 and then what remains
  of plane 2, through relative `ByteBuffer.get` calls. Those calls advance the
  buffers' positions. Plane 1 is not touched.
- **Overlay** (`drawBoundingBoxes`). The input bitmap is copied. For each box,
  in input order, one rectangle `(x1*w, y1*h, x2*w, y2*h)` is drawn, then the
  class name at `(left, bottom)`. A bitmap is a value holding its size, the
  NV21 bytes it was decoded from and its list of draw calls. The method's loop
  appends to that list through a `Canvas` object.
- **Published image** (`image`, `onDetect`, `onEmptyDetect`, and the body of
  the detection coroutine). These are updates to an `Option<Bitmap>` field.
  Each coroutine runs to completion before the next call.

One consequence of the code depends on two assumptions about the platform.
First, `imageProxy.toBitmap()` at :103 and :119 must call the activity's own
extension at :135. CameraX 1.3 and later declares a member
`ImageProxy.toBitmap()`, and Kotlin picks a member over an extension; the build
file that fixes the CameraX version is not part of this model. Second,
`planes[i].buffer` must return the same buffer object on every access, as
`Image.Plane` does. Under both assumptions, a relative `get` consumes a buffer,
so on the first frame the warm-up branch's `toBitmap()` drains planes 0 and 2.
If that frame is also admitted, its bitmap is then packed from an empty NV21
array. `ProcessImageProxy` states this in its postcondition.

Behaviours of the code worth stating plainly:

- A timestamp earlier than `lastProcessedTime` (a clock set back) is dropped. It
  is not admitted once with a reset baseline (`ClockSetBackDrops`). The
  baseline never moves backwards, so two admitted frames are at least 5000 ms
  apart in stream order even when the clock is set back in between
  (`AdmittedFramesSpaced`).
- Detection results carry no sequence number. Each `onDetect` draws on whatever
  bitmap is published at that moment.
- `onEmptyDetect` only logs, so the published image stays as it was.
- The packing checks no plane sizes, so there is no decode-error path.
- The warm-up sleeps on the analyzer thread itself.
- "A frame the interval after an admitted one is admitted" holds when every
  frame in between was dropped (`AdmittedAfterDroppedStretch`). A frame
  admitted in between moves the baseline.

## Model

| member | source | states |
|---|---|---|
| `Activity.MainActivity.constructor` | app/src/main/java/com/example/yolov8android/MainActivity.kt:37-45 | No image is published; `firstTime` is true and `lastProcessedTime` is 0. |
| `Activity.MainActivity.ProcessImageProxy` | app/src/main/java/com/example/yolov8android/MainActivity.kt:98-133 | The decision is taken on the entry state and the time read on entry. The new gate state is `Next` of the old one. The side effects are exactly `Effects(decision)`. The frame's close count rises by exactly one. The image and plane 1 are untouched. Planes 0 and 2 are left consumed when a conversion ran and untouched otherwise. A bitmap is dispatched iff the frame is admitted. It holds planes 0 and 2 as found on entry, or nothing when the warm-up ran in the same call. |
| `Activity.MainActivity.RunDetection` | app/src/main/java/com/example/yolov8android/MainActivity.kt:121-129 | The bitmap is published when the detector returns. When the detector throws, the published image is unchanged. |
| `Activity.MainActivity.OnDetect` | app/src/main/java/com/example/yolov8android/MainActivity.kt:155-163 | With nothing published, nothing changes. Otherwise the published image becomes an overlaid copy of itself (`AfterDetect`). |
| `Activity.MainActivity.OnEmptyDetect` | app/src/main/java/com/example/yolov8android/MainActivity.kt:165-167 | The published image is unchanged. |
| `Activity.AfterDetect` | app/src/main/java/com/example/yolov8android/MainActivity.kt:155-161 | `onDetect` publishes nothing when nothing is published. Otherwise the result keeps the published bitmap's size, source and earlier draw calls, followed by two new calls per box. |
| `Activity.DetectionsAccumulate` | app/src/main/java/com/example/yolov8android/MainActivity.kt:155-161 | Two `onDetect` results with no publish between them draw both box lists on one picture, the second on top. |
| `FrameGate.Decide` | app/src/main/java/com/example/yolov8android/MainActivity.kt:100-114 | The warm-up runs iff `firstTime` is set. The frame is admitted iff `currentTime >= lastProcessedTime + 5000`. |
| `FrameGate.Next` | app/src/main/java/com/example/yolov8android/MainActivity.kt:111-116 | `firstTime` is cleared. The baseline either stays or moves to the admitted frame's time, at least 5000 past the old baseline. |
| `FrameGate.Effects` | app/src/main/java/com/example/yolov8android/MainActivity.kt:100-132 | The ordered effects of one call for each of the four decisions. The list is never empty, has at most six entries and ends with the close (the rest in `EffectsOrder`). |
| `FrameGate.NextState` | app/src/main/java/com/example/yolov8android/MainActivity.kt:100-116 | A frame is admitted iff `currentTime - lastProcessedTime >= 5000`. On admission the baseline becomes `currentTime`; on a drop it is unchanged. `firstTime` is false afterwards. |
| `FrameGate.EffectsOrder` | app/src/main/java/com/example/yolov8android/MainActivity.kt:98-133 | The frame is closed exactly once, as the last effect. The sleep occurs iff the warm-up runs. A detection is launched iff the frame is admitted. With both, the sleep comes first and the launch follows in the same call. |
| `FrameGate.Run` | app/src/main/java/com/example/yolov8android/MainActivity.kt:98-133 | One decision per frame of a stream, in order. |
| `FrameGate.RunAt` | app/src/main/java/com/example/yolov8android/MainActivity.kt:44-45 | Frame `j` of a stream is decided on the gate state left by the frames before it. |
| `FrameGate.NoWarmUpOnceCleared` | app/src/main/java/com/example/yolov8android/MainActivity.kt:100-111 | Once `firstTime` is false, no later frame runs the warm-up branch. |
| `FrameGate.WarmUpOnlyOnFirstFrame` | app/src/main/java/com/example/yolov8android/MainActivity.kt:45-111 | From the initial state, frame `i` runs the warm-up iff `i == 0`. |
| `FrameGate.FirstFrameIsChecked` | app/src/main/java/com/example/yolov8android/MainActivity.kt:99-116 | The warm-up does not return early. The first frame is admitted iff its entry time is at least 5000. The effects are the warm-up's followed by the check's, then the close. |
| `FrameGate.EveryFrameClosedOnce` | app/src/main/java/com/example/yolov8android/MainActivity.kt:132 | Over any stream, the trace has exactly as many closes as there are frames. |
| `FrameGate.AdmittedPastBaseline` | app/src/main/java/com/example/yolov8android/MainActivity.kt:114-116 | If the baseline is at least `b`, every admitted frame of any stream is at least 5000 past `b`, whatever the timestamps do. |
| `FrameGate.AdmittedFramesSpaced` | app/src/main/java/com/example/yolov8android/MainActivity.kt:114-116 | Any two admitted frames are at least 5000 ms apart, the later one in stream order having the larger time, for any sequence of timestamps. |
| `FrameGate.BaselineKeptWhileDropped` | app/src/main/java/com/example/yolov8android/MainActivity.kt:114-116 | While every frame is dropped the baseline stays put: frame `j` is admitted iff it is at least 5000 past the baseline found at the start of the stretch. |
| `FrameGate.AdmittedAfterDroppedStretch` | app/src/main/java/com/example/yolov8android/MainActivity.kt:114-116 | After an admitted frame `i`, when every frame between `i` and `j` was dropped, frame `j` is admitted iff `times[j] - times[i] >= 5000`. |
| `FrameGate.ClockSetBackDrops` | app/src/main/java/com/example/yolov8android/MainActivity.kt:114 | A timestamp earlier than the baseline is dropped and leaves the baseline where it was. |
| `Platform.ByteBuffer.Remaining` | app/src/main/java/com/example/yolov8android/MainActivity.kt:139-140 | `remaining()` is the number of unread bytes. |
| `Platform.ByteBuffer.Get` | app/src/main/java/com/example/yolov8android/MainActivity.kt:144-145 | The next `length` bytes land in `dst[offset..offset+length]`. The rest of `dst` is unchanged, and the position advances by `length`. |
| `Platform.ImageProxy.Close` | app/src/main/java/com/example/yolov8android/MainActivity.kt:132 | Closing adds one to the frame's close count. |
| `Platform.Canvas.DrawRect` | app/src/main/java/com/example/yolov8android/MainActivity.kt:190 | Appends one rectangle call to the bitmap's draw list. |
| `Platform.Canvas.DrawText` | app/src/main/java/com/example/yolov8android/MainActivity.kt:191 | Appends one text call to the bitmap's draw list. |
| `Platform.Bitmap.Copy` | app/src/main/java/com/example/yolov8android/MainActivity.kt:170 | `copy(ARGB_8888, true)` gives a bitmap with the same size, source bytes and draw calls as the original. |
| `Nv21.PackNv21` | app/src/main/java/com/example/yolov8android/MainActivity.kt:136-145 | The array has length `ySize + vuSize`. It holds the Y bytes followed by the VU bytes, in order. Both buffers read are left consumed, and plane 1 is untouched. |
| `Nv21.ToBitmap` | app/src/main/java/com/example/yolov8android/MainActivity.kt:135-153 | The bitmap has the frame's size and is decoded from the packed NV21 bytes, with nothing drawn on it. |
| `Overlay.PixelRect` | app/src/main/java/com/example/yolov8android/MainActivity.kt:184-189 | The box scaled from normalised to pixel coordinates, `(x1*w, y1*h, x2*w, y2*h)`. For a non-negative size, ordered corners stay ordered. |
| `Overlay.DrawPlan` | app/src/main/java/com/example/yolov8android/MainActivity.kt:183-192 | Two draw calls per box. |
| `Overlay.DrawPlanAt` | app/src/main/java/com/example/yolov8android/MainActivity.kt:183-191 | Call `2i` is box `i`'s rectangle `(x1*w, y1*h, x2*w, y2*h)`. Call `2i+1` is its class name at that rectangle's `(left, bottom)`. |
| `Overlay.DrawPlanAppend` | app/src/main/java/com/example/yolov8android/MainActivity.kt:183-192 | The calls for `a + b` are the calls for `a` followed by those for `b`, so input order is draw order. |
| `Overlay.DrawBoundingBoxes` | app/src/main/java/com/example/yolov8android/MainActivity.kt:169-195 | The result is the input picture with the boxes' draw calls appended in input order. The input value itself is not altered. |
| `Overlay.OverlaidTwice` | app/src/main/java/com/example/yolov8android/MainActivity.kt:169-195 | Overlaying `a` and then `b` equals overlaying `a + b`. |
| `Overlay.NoBoxesDrawNothing` | app/src/main/java/com/example/yolov8android/MainActivity.kt:183-194 | An empty box list returns a copy identical to the input. |
| `Overlay.NormalisedBoxInsideBitmap` | app/src/main/java/com/example/yolov8android/MainActivity.kt:184-189 | A box with corners in [0, 1] maps to a rectangle inside the bitmap, with left <= right and top <= bottom. |
| `Overlay.ExampleBox` | app/src/main/java/com/example/yolov8android/MainActivity.kt:184-191 | Box (0.1, 0.1)-(0.5, 0.5) on 1000 x 1000 draws rectangle (100, 100)-(500, 500), labelled at (100, 500). |

## Left out

- Compose UI (`setContent`, `MyImage`), `PreviewView`, layout inflation, `onCreate` and `onDestroy` are UI and lifecycle glue. The `image?.let` in `onCreate` runs while `image` is still null, so it does nothing.
- `startCamera` is CameraX binding. Its keep-only-latest back-pressure is a library setting.
- `System.currentTimeMillis()` is a parameter of `ProcessImageProxy`. `Thread.sleep` and the two `processingScope.launch` calls appear only as effects in the trace. Each conversion is also a `ToBitmap` call that packs and drains the planes; only its JPEG round trip is left out (see the codec line below). The `Log` calls (:101, :110, :115, :126, :162, :166) are not modelled.
- The warm-up coroutine's body is an empty, commented-out mask step. It is the `LaunchMaskStub` effect.
- `Detector` (setup, `detect`, and when it calls back) is not part of this model. Whether `detect` throws is a parameter of `RunDetection`. `onDetect` and `onEmptyDetect` are separate calls. How these callbacks interleave with the publish at :124 is not modelled.
- Threads and coroutines: `processImageProxy` never writes `image`. Both writes (:124 and :159) run in coroutines on the IO dispatcher, so the detection coroutine and `onDetect`'s drawing coroutine race on it. The model runs each call to completion, in the order called.
- Exceptions inside `processImageProxy` are not modelled. The method has no try/finally, and `Thread.sleep` (an interrupt), the `YuvImage` constructor (a non-positive size) or a null from `decodeByteArray` can throw. A throw skips the close at :132. A throw at :102-103 also leaves `firstTime` true, so the next frame warms up again. `lastProcessedTime` is set at :116 before the conversion at :119 can throw. `ToBitmap` cannot fail in the model, so `EveryFrameClosedOnce`, `WarmUpOnlyOnFirstFrame` and the other stream lemmas hold for runs in which nothing throws.
- Overlay.DrawBoundingBoxes: a bitmap is a value, so `Copy()` returns the same value. That the input is unaltered holds by construction; the model does not distinguish drawing on a copy (:170) from drawing on the input in place, nor capture the aliasing the copy avoids.
- `YuvImage.compressToJpeg` and `BitmapFactory.decodeByteArray` are a platform codec. A bitmap keeps the NV21 bytes it came from in place of pixels.
- Coordinates are reals. Float rounding of `x1 * width` is not modelled, and neither are paints, colours, stroke width, text size or rasterisation.
- `lastProcessedTime` and `currentTime` are Kotlin `Long`s. The model uses unbounded integers, so overflow of `currentTime - lastProcessedTime` (unreachable with real clock values) is not modelled.
- The rotation degrees read at :118 are never used, so they are not modelled.
- `ByteBuffer` covers only relative bulk reads within the limit. The exceptions `get` throws on bad ranges are preconditions, and the calls at :144-145 always meet them.
- `BoundingBox` keeps only the fields that are drawn (corners and class name).
