/** The frame gate of `processImageProxy`: the state it keeps between frames
    (`firstTime`, `lastProcessedTime`), the decision it takes for one frame,
    the ordered side effects of that decision, and what follows for a whole
    stream of frames. The activity's method is proved against `Decide`,
    `Next` and `Effects`; the lemmas below are about those functions. */
module FrameGate {

  /** Minimum time between two frames sent to the detector, in milliseconds. */
  const MinIntervalMs: int := 5000

  /** How long the warm-up branch blocks the analyzer thread, in milliseconds. */
  const WarmUpMs: int := 30000

  datatype GateState = GateState(firstTime: bool, lastProcessedTime: int)

  /** The field initialisers: `lastProcessedTime = 0L`, `firstTime = true`. */
  const Initial: GateState := GateState(true, 0)

  /** What one call does with its frame: whether it runs the warm-up branch
      and whether it admits the frame for detection. */
  datatype Decision = Decision(warmUp: bool, admit: bool)

  /** The observable steps of one call, in order. The sleep, the conversions,
      the coroutine launches and the close are effects, not computations. */
  datatype Effect =
    | Sleep(ms: int)                  // Thread.sleep on the analyzer thread
    | ConvertFrame                    // imageProxy.toBitmap()
    | LaunchMaskStub                  // the warm-up coroutine, whose body is empty
    | LaunchDetection(capturedAt: int) // the coroutine that runs the detector
    | CloseFrame                      // imageProxy.close()

  predicate Admits(lastProcessedTime: int, currentTime: int)
  {
    currentTime - lastProcessedTime >= MinIntervalMs
  }

  /** The decision for a frame whose timestamp, read on entry, is `currentTime`:
      the warm-up runs while `firstTime` is set, and the frame is admitted when
      it is at least the interval past the last admitted one. */
  function Decide(s: GateState, currentTime: int): (d: Decision)
    ensures d.warmUp <==> s.firstTime
    ensures d.admit <==> currentTime >= s.lastProcessedTime + MinIntervalMs
  {
    Decision(s.firstTime, Admits(s.lastProcessedTime, currentTime))
  }

  /** The gate state after that frame: `firstTime` is cleared, and the
      baseline either stays or moves forward by at least the interval, to the
      admitted frame's time. */
  function Next(s: GateState, currentTime: int): (n: GateState)
    ensures !n.firstTime
    ensures n.lastProcessedTime == s.lastProcessedTime ||
      (n.lastProcessedTime == currentTime && currentTime >= s.lastProcessedTime + MinIntervalMs)
  {
    GateState(false, if Admits(s.lastProcessedTime, currentTime) then currentTime else s.lastProcessedTime)
  }

  /** The ordered side effects of one call (see `EffectsOrder`). */
  function Effects(d: Decision, currentTime: int): (r: seq<Effect>)
    ensures 1 <= |r| <= 6 && r[|r| - 1] == CloseFrame
  {
    match d
    case Decision(true, true) =>
      [Sleep(WarmUpMs), ConvertFrame, LaunchMaskStub, ConvertFrame, LaunchDetection(currentTime), CloseFrame]
    case Decision(true, false) =>
      [Sleep(WarmUpMs), ConvertFrame, LaunchMaskStub, CloseFrame]
    case Decision(false, true) =>
      [ConvertFrame, LaunchDetection(currentTime), CloseFrame]
    case Decision(false, false) =>
      [CloseFrame]
  }

  /** The warm-up branch (if taken) sleeps first and falls through to the
      interval check, which launches a detection exactly when the frame is
      admitted; the frame is closed last, exactly once, on every path. */
  lemma EffectsOrder(d: Decision, currentTime: int)
    ensures var r := Effects(d, currentTime);
      multiset(r)[CloseFrame] == 1 && r[|r| - 1] == CloseFrame &&
      (Sleep(WarmUpMs) in r <==> d.warmUp) &&
      (LaunchDetection(currentTime) in r <==> d.admit) &&
      (d.warmUp && d.admit ==> |r| == 6 && r[0] == Sleep(WarmUpMs) && r[4] == LaunchDetection(currentTime))
  {
  }

  lemma NextState(s: GateState, currentTime: int)
    ensures !Next(s, currentTime).firstTime
    ensures Decide(s, currentTime).admit <==> currentTime - s.lastProcessedTime >= MinIntervalMs
    ensures Decide(s, currentTime).admit ==> Next(s, currentTime).lastProcessedTime == currentTime
    ensures !Decide(s, currentTime).admit ==> Next(s, currentTime).lastProcessedTime == s.lastProcessedTime
  {
  }

  /** The decisions for a stream of frames with timestamps `times`, in order. */
  function Run(s: GateState, times: seq<int>): (ds: seq<Decision>)
    ensures |ds| == |times|
    decreases |times|
  {
    if times == [] then []
    else [Decide(s, times[0])] + Run(Next(s, times[0]), times[1..])
  }

  /** The gate state after the frames `times`. */
  function After(s: GateState, times: seq<int>): GateState
    decreases |times|
  {
    if times == [] then s else After(Next(s, times[0]), times[1..])
  }

  /** All the side effects of the frames `times`, in order. */
  function Trace(s: GateState, times: seq<int>): seq<Effect>
    decreases |times|
  {
    if times == [] then []
    else Effects(Decide(s, times[0]), times[0]) + Trace(Next(s, times[0]), times[1..])
  }

  /** Frame `j` of a stream is decided on the state the frames before it left. */
  lemma {:induction false} RunAt(s: GateState, times: seq<int>, j: nat)
    requires j < |times|
    ensures Run(s, times)[j] == Decide(After(s, times[..j]), times[j])
    decreases j
  {
    if j > 0 {
      RunAt(Next(s, times[0]), times[1..], j - 1);
      assert times[..j][1..] == times[1..][..j - 1];
    }
  }

  /** Once `firstTime` has been cleared no later frame runs the warm-up. */
  lemma {:induction false} NoWarmUpOnceCleared(s: GateState, times: seq<int>)
    requires !s.firstTime
    ensures forall i :: 0 <= i < |times| ==> !Run(s, times)[i].warmUp
    decreases |times|
  {
    if times != [] {
      NoWarmUpOnceCleared(Next(s, times[0]), times[1..]);
    }
  }

  /** From the initial state, the warm-up branch runs on the first frame and
      on no other. */
  lemma WarmUpOnlyOnFirstFrame(times: seq<int>)
    ensures forall i :: 0 <= i < |times| ==> (Run(Initial, times)[i].warmUp <==> i == 0)
  {
    if times != [] {
      NoWarmUpOnceCleared(Next(Initial, times[0]), times[1..]);
    }
  }

  /** The warm-up does not return early: the first frame is still checked
      against the interval, with the timestamp read before the sleep. */
  lemma FirstFrameIsChecked(t: int)
    ensures Run(Initial, [t]) == [Decision(true, t >= MinIntervalMs)]
    ensures After(Initial, [t]) == GateState(false, if t >= MinIntervalMs then t else 0)
    ensures Trace(Initial, [t]) ==
      if t >= MinIntervalMs then [Sleep(WarmUpMs), ConvertFrame, LaunchMaskStub, ConvertFrame, LaunchDetection(t), CloseFrame]
      else [Sleep(WarmUpMs), ConvertFrame, LaunchMaskStub, CloseFrame]
  {
  }

  /** Every frame of a stream is closed exactly once. */
  lemma {:induction false} EveryFrameClosedOnce(s: GateState, times: seq<int>)
    ensures multiset(Trace(s, times))[CloseFrame] == |times|
    decreases |times|
  {
    if times != [] {
      EveryFrameClosedOnce(Next(s, times[0]), times[1..]);
    }
  }

  /** When the gate's baseline is at least `b`, an admitted frame is at least
      the interval past `b`, whatever the clock does: the baseline never moves
      backwards. */
  lemma {:induction false} AdmittedPastBaseline(s: GateState, times: seq<int>, j: nat, b: int)
    requires b <= s.lastProcessedTime
    requires j < |times| && Run(s, times)[j].admit
    ensures times[j] - b >= MinIntervalMs
    decreases j
  {
    if j > 0 {
      AdmittedPastBaseline(Next(s, times[0]), times[1..], j - 1, b);
    }
  }

  /** Two admitted frames are at least the interval apart, in stream order,
      even with a clock that is set back in between. */
  lemma {:induction false} AdmittedFramesSpaced(s: GateState, times: seq<int>, i: nat, j: nat)
    requires i < j < |times|
    requires Run(s, times)[i].admit && Run(s, times)[j].admit
    ensures times[j] - times[i] >= MinIntervalMs
    decreases i
  {
    if i > 0 {
      AdmittedFramesSpaced(Next(s, times[0]), times[1..], i - 1, j - 1);
    } else {
      AdmittedPastBaseline(Next(s, times[0]), times[1..], j - 1, times[0]);
    }
  }

  /** While every frame is dropped the baseline stays put, so frame `j` is
      admitted iff it is the interval past the baseline found at the start. */
  lemma {:induction false} BaselineKeptWhileDropped(s: GateState, times: seq<int>, j: nat)
    requires j < |times|
    requires forall k :: 0 <= k < j ==> !Run(s, times)[k].admit
    ensures Run(s, times)[j].admit <==> times[j] - s.lastProcessedTime >= MinIntervalMs
    decreases j
  {
    if j > 0 {
      var rest := Run(Next(s, times[0]), times[1..]);
      forall k | 0 <= k < j - 1
        ensures !rest[k].admit
      {
        assert rest[k] == Run(s, times)[k + 1];
      }
      assert !Run(s, times)[0].admit;
      assert Next(s, times[0]).lastProcessedTime == s.lastProcessedTime;
      BaselineKeptWhileDropped(Next(s, times[0]), times[1..], j - 1);
      assert Run(s, times)[j] == rest[j - 1] && times[1..][j - 1] == times[j];
    }
  }

  /** After an admitted frame `i`, when every frame between `i` and `j` was
      dropped, frame `j` is admitted iff it is at least the interval later. */
  lemma {:induction false} AdmittedAfterDroppedStretch(s: GateState, times: seq<int>, i: nat, j: nat)
    requires i < j < |times|
    requires Run(s, times)[i].admit
    requires forall k :: i < k < j ==> !Run(s, times)[k].admit
    ensures Run(s, times)[j].admit <==> times[j] - times[i] >= MinIntervalMs
    decreases i
  {
    var rest := Run(Next(s, times[0]), times[1..]);
    if i > 0 {
      forall k | i - 1 < k < j - 1
        ensures !rest[k].admit
      {
        assert rest[k] == Run(s, times)[k + 1];
      }
      AdmittedAfterDroppedStretch(Next(s, times[0]), times[1..], i - 1, j - 1);
    } else {
      forall k | 0 <= k < j - 1
        ensures !rest[k].admit
      {
        assert rest[k] == Run(s, times)[k + 1];
      }
      BaselineKeptWhileDropped(Next(s, times[0]), times[1..], j - 1);
    }
  }

  /** A timestamp earlier than the last processed one (a clock set back) is
      dropped, and the baseline stays where it was. */
  lemma ClockSetBackDrops(s: GateState, currentTime: int)
    requires currentTime < s.lastProcessedTime
    ensures !Decide(s, currentTime).admit
    ensures Next(s, currentTime).lastProcessedTime == s.lastProcessedTime
  {
  }
}
