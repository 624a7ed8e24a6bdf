/** The detection loop of the face-landmarker view: one `detectFrame` tick gates on
    frame readiness and on the processing interval, sizes the offscreen surface,
    publishes one tracked landmark (or null) through `onUpdate`, keeps the visible
    canvas at the video's size, and reschedules itself exactly once. The detector,
    the video element and the schedulers are inputs; published values and
    reschedule requests are logs. */
module FaceLandmarkerView {

  import opened Wrappers
  import opened Landmarks
  import opened Reals

  /** Minimum time between two executed cycles, in milliseconds. */
  const PROCESS_INTERVAL: real := 1000.0 / 30.0

  /** Index of the tracked landmark in the detector's landmark array. */
  const TRACKED_LANDMARK: nat := 168

  /** Size a canvas has before anything sets it (the HTML default). */
  const DEFAULT_CANVAS_WIDTH: nat := 300
  const DEFAULT_CANVAS_HEIGHT: nat := 150

  const TWO_TO_32: int := 0x1_0000_0000

  type DetectorHandle = nat

  /** What the tick sees of the page: whether the video and canvas elements are
      attached, the video's intrinsic size, and whether the video element offers
      `requestVideoFrameCallback`. */
  datatype Frame = Frame(videoAttached: bool, canvasAttached: bool, videoWidth: nat, videoHeight: nat,
                         videoFrameCallback: bool)

  /** The detector's result: `faceLandmarks` may be absent; one landmark array per face. */
  datatype Detection = Detection(faceLandmarks: Option<seq<seq<Landmark>>>)

  /** The argument of one `onUpdate` call. Indexing past the end of the landmark array
      yields `undefined`, which is not `null`. */
  datatype Update = Point(point: Landmark) | NullPoint | UndefinedPoint

  datatype Scheduler = VideoFrameCallback | AnimationFrame

  /** Everything one tick receives: its timestamp, the page, the detector's answer for
      this frame and whether `getContext("2d")` would return a context. */
  datatype Tick = Tick(time: real, frame: Frame, detection: Detection, contextAvailable: bool)

  datatype Size = Size(width: nat, height: nat)

  datatype ViewState = ViewState(
    lastTimestamp: real,
    offscreen: Size,
    canvas: Size,
    contextAcquired: bool,
    detector: Option<DetectorHandle>,
    mounted: bool,
    closed: set<DetectorHandle>,
    updates: seq<Update>,
    schedules: seq<Scheduler>)

  const Mounted := ViewState(0.0, Size(DEFAULT_CANVAS_WIDTH, DEFAULT_CANVAS_HEIGHT),
                             Size(DEFAULT_CANVAS_WIDTH, DEFAULT_CANVAS_HEIGHT),
                             false, None, true, {}, [], [])

  /** A real truncated toward zero. */
  function Truncate(x: real): int {
    if x >= 0.0 then x.Floor else -((-x).Floor)
  }

  /** The WebIDL `unsigned long` conversion of a canvas width or height. The HTML setter
      also replaces a converted value above 2147483647 with the default; that does not
      arise here, since the scale lies in (0,1] and video dimensions are far below it. */
  function ToUnsignedLong(x: real): (r: nat)
    ensures r < TWO_TO_32
  {
    Truncate(x) % TWO_TO_32
  }

  /** In range, the conversion keeps the whole part of a non-negative real. */
  lemma ToUnsignedLongInRange(x: real)
    requires 0.0 <= x < TWO_TO_32 as real
    ensures ToUnsignedLong(x) == x.Floor
  {
  }

  /** A tick finds a frame to work on: both elements attached, a detector loaded and a
      video with non-zero width and height. */
  predicate FrameReady(frame: Frame, detectorLoaded: bool): (r: bool)
    ensures !r <==> (!frame.videoAttached || !frame.canvasAttached || !detectorLoaded
                     || frame.videoWidth == 0 || frame.videoHeight == 0)
    ensures r ==> SchedulerFor(frame) == if frame.videoFrameCallback then VideoFrameCallback else AnimationFrame
  {
    frame.videoAttached && frame.canvasAttached && detectorLoaded
    && frame.videoWidth != 0 && frame.videoHeight != 0
  }

  /** A tick executes a detection cycle: the frame is ready and at least the processing
      interval has passed since the last executed cycle. */
  predicate Executes(lastTimestamp: real, detectorLoaded: bool, t: Tick): (r: bool)
    ensures r <==> FrameReady(t.frame, detectorLoaded) && t.time >= lastTimestamp + PROCESS_INTERVAL
    ensures r ==> t.time > lastTimestamp
  {
    FrameReady(t.frame, detectorLoaded) && !(t.time - lastTimestamp < PROCESS_INTERVAL)
  }

  /** `scheduleNext`: the video's frame callback when the element offers it, else an
      animation frame. */
  function SchedulerFor(frame: Frame): (r: Scheduler)
    ensures r == VideoFrameCallback <==> frame.videoAttached && frame.videoFrameCallback
  {
    if frame.videoAttached && frame.videoFrameCallback then VideoFrameCallback else AnimationFrame
  }

  /** `results.faceLandmarks?.[0]`: the first face's landmarks, if any. */
  function FirstFace(d: Detection): (r: Option<seq<Landmark>>)
    ensures r.Some? <==> d.faceLandmarks.Some? && |d.faceLandmarks.value| > 0
    ensures r.Some? ==> r.value == d.faceLandmarks.value[0]
  {
    if d.faceLandmarks.Some? && |d.faceLandmarks.value| > 0 then Some(d.faceLandmarks.value[0]) else None
  }

  /** The value handed to `onUpdate`: the tracked landmark of the first face, or null
      when no face was found. */
  function Published(d: Detection): (u: Update)
    ensures u.NullPoint? <==> FirstFace(d).None?
    ensures u.Point? <==> FirstFace(d).Some? && TRACKED_LANDMARK < |FirstFace(d).value|
    ensures u.Point? ==> u.point == FirstFace(d).value[TRACKED_LANDMARK]
  {
    match FirstFace(d)
    case None => NullPoint
    case Some(landmarks) =>
      if TRACKED_LANDMARK < |landmarks| then Point(landmarks[TRACKED_LANDMARK]) else UndefinedPoint
  }

  /** The offscreen surface size for a video frame at the given scale: for a video that
      fits a canvas dimension and a scale in (0,1], no larger than the video, and the
      video's own size at scale 1. */
  function ScaledSize(frame: Frame, scale: real): (r: Size)
    ensures 0.0 < scale <= 1.0 && frame.videoWidth < TWO_TO_32 && frame.videoHeight < TWO_TO_32 ==>
      r.width <= frame.videoWidth && r.height <= frame.videoHeight
    ensures scale == 1.0 && frame.videoWidth < TWO_TO_32 && frame.videoHeight < TWO_TO_32 ==>
      r == Size(frame.videoWidth, frame.videoHeight)
  {
    if 0.0 < scale <= 1.0 && frame.videoWidth < TWO_TO_32 && frame.videoHeight < TWO_TO_32 then
      ScaledPixelsBounds(frame.videoWidth, scale);
      ScaledPixelsBounds(frame.videoHeight, scale);
      Size(ScaledPixels(frame.videoWidth, scale), ScaledPixels(frame.videoHeight, scale))
    else
      Size(ScaledPixels(frame.videoWidth, scale), ScaledPixels(frame.videoHeight, scale))
  }

  /** One offscreen dimension: `videoWidth * scale` stored into a canvas dimension. */
  function ScaledPixels(n: nat, scale: real): nat {
    ToUnsignedLong(Scaled(n, scale))
  }

  /** `videoWidth * scale`: at a scale in (0,1], between 0 and the unscaled length. */
  function Scaled(n: nat, scale: real): (x: real)
    ensures 0.0 < scale <= 1.0 ==> 0.0 <= x <= n as real
    ensures scale == 1.0 ==> x == n as real
  {
    NonnegProductIf(n as real, scale);
    NonnegProductIf(n as real, 1.0 - scale);
    n as real * scale
  }

  /** `ensureCanvasSize`: the requested size; the canvas is written only when it differs. */
  predicate NeedsResize(current: Size, width: nat, height: nat) {
    current.width != width || current.height != height
  }

  /** One `detectFrame` call. */
  function DetectStep(s: ViewState, scale: real, t: Tick): (r: ViewState)
    ensures r.schedules == s.schedules + [SchedulerFor(t.frame)]
    ensures !Executes(s.lastTimestamp, s.detector.Some?, t) ==> r == s.(schedules := r.schedules)
    ensures Executes(s.lastTimestamp, s.detector.Some?, t) ==>
      && r.lastTimestamp == t.time
      && r.offscreen == ScaledSize(t.frame, scale)
      && r.updates == s.updates + [Published(t.detection)]
    ensures r.detector == s.detector && r.mounted == s.mounted && r.closed == s.closed
    ensures r.canvas != s.canvas ==> r.canvas == Size(t.frame.videoWidth, t.frame.videoHeight)
  {
    var next := s.schedules + [SchedulerFor(t.frame)];
    if !Executes(s.lastTimestamp, s.detector.Some?, t) then s.(schedules := next)
    else
      var face := FirstFace(t.detection);
      var context := s.contextAcquired || (face.Some? && t.contextAvailable);
      var canvas := if face.Some? && context then Size(t.frame.videoWidth, t.frame.videoHeight) else s.canvas;
      s.(lastTimestamp := t.time, offscreen := ScaledSize(t.frame, scale), canvas := canvas,
         contextAcquired := context, updates := s.updates + [Published(t.detection)], schedules := next)
  }

  /** The end of `init`: the loaded detector is stored only while the view is mounted. */
  function DetectorLoaded(s: ViewState, handle: DetectorHandle): (r: ViewState)
    ensures s.mounted ==> r == s.(detector := Some(handle))
    ensures !s.mounted ==> r == s
  {
    if s.mounted then s.(detector := Some(handle)) else s
  }

  /** The effect's cleanup: the view is no longer mounted and the stored detector is closed. */
  function Unmount(s: ViewState): (r: ViewState)
    ensures !r.mounted
    ensures r.closed == s.closed + (if s.detector.Some? then {s.detector.value} else {})
    ensures r == s.(mounted := false, closed := r.closed)
  {
    s.(mounted := false, closed := if s.detector.Some? then s.closed + {s.detector.value} else s.closed)
  }

  // ---------------------------------------------------------------------------
  // Properties

  /** A detector whose load finishes after cleanup is not stored, and nothing closes it. */
  lemma LateDetectorIsNeitherStoredNorClosed(s: ViewState, handle: DetectorHandle)
    requires handle !in s.closed && s.detector != Some(handle)
    ensures DetectorLoaded(Unmount(s), handle).detector == s.detector
    ensures handle !in DetectorLoaded(Unmount(s), handle).closed
  {
  }

  /** At a scale in (0,1] an offscreen dimension is the product truncated to whole
      pixels, never larger than the video's, and exactly the video's at scale 1. */
  lemma {:induction false} ScaledPixelsBounds(n: nat, scale: real)
    requires 0.0 < scale <= 1.0
    requires n < TWO_TO_32
    ensures ScaledPixels(n, scale) == Scaled(n, scale).Floor
    ensures ScaledPixels(n, scale) <= n
    ensures scale == 1.0 ==> ScaledPixels(n, scale) == n
  {
    FloorInRange(Scaled(n, scale), n);
  }

  lemma FloorInRange(x: real, n: nat)
    requires 0.0 <= x <= n as real && n < TWO_TO_32
    ensures ToUnsignedLong(x) == x.Floor <= n
  {
    ToUnsignedLongInRange(x);
  }

  lemma NonnegProductIf(a: real, b: real)
    ensures a >= 0.0 && b >= 0.0 ==> a * b >= 0.0
  {
    if a >= 0.0 && b >= 0.0 {
      NonnegProduct(a, b);
    }
  }

  /** A sequence of ticks, all seen with the same detector. */
  function Ticks(s: ViewState, scale: real, ts: seq<Tick>): ViewState
    decreases |ts|
  {
    if |ts| == 0 then s else Ticks(DetectStep(s, scale, ts[0]), scale, ts[1..])
  }

  /** The timestamps of the ticks that execute a cycle, starting from `last`. */
  function ExecutedTimes(last: real, detectorLoaded: bool, ts: seq<Tick>): (r: seq<real>)
    ensures |r| <= |ts|
    decreases |ts|
  {
    if |ts| == 0 then []
    else if Executes(last, detectorLoaded, ts[0]) then [ts[0].time] + ExecutedTimes(ts[0].time, detectorLoaded, ts[1..])
    else ExecutedTimes(last, detectorLoaded, ts[1..])
  }

  /** Each executed time is at least the processing interval after the one before it
      (the first: after `last`). */
  ghost predicate Spaced(last: real, times: seq<real>)
    decreases |times|
  {
    |times| == 0 || (times[0] - last >= PROCESS_INTERVAL && Spaced(times[0], times[1..]))
  }

  /** Over any run of ticks: one reschedule per tick, one `onUpdate` per executed cycle,
      and `lastTimestamp` is the time of the last executed cycle. */
  lemma {:induction false} TicksCount(s: ViewState, scale: real, ts: seq<Tick>)
    ensures |Ticks(s, scale, ts).schedules| == |s.schedules| + |ts|
    ensures |Ticks(s, scale, ts).updates| == |s.updates| + |ExecutedTimes(s.lastTimestamp, s.detector.Some?, ts)|
    ensures var e := ExecutedTimes(s.lastTimestamp, s.detector.Some?, ts);
      Ticks(s, scale, ts).lastTimestamp == if |e| == 0 then s.lastTimestamp else e[|e| - 1]
    ensures Ticks(s, scale, ts).detector == s.detector
    decreases |ts|
  {
    if |ts| > 0 {
      var s' := DetectStep(s, scale, ts[0]);
      TicksCount(s', scale, ts[1..]);
    }
  }

  /** Executed cycles are never closer together than the processing interval, whatever
      the order of the timestamps. */
  lemma {:induction false} ExecutedAreSpaced(last: real, detectorLoaded: bool, ts: seq<Tick>)
    ensures Spaced(last, ExecutedTimes(last, detectorLoaded, ts))
    decreases |ts|
  {
    if |ts| > 0 {
      if Executes(last, detectorLoaded, ts[0]) {
        ExecutedAreSpaced(ts[0].time, detectorLoaded, ts[1..]);
        assert ExecutedTimes(last, detectorLoaded, ts)[1..] == ExecutedTimes(ts[0].time, detectorLoaded, ts[1..]);
      } else {
        ExecutedAreSpaced(last, detectorLoaded, ts[1..]);
      }
    }
  }

  /** Spacing between neighbours gives spacing between any two: the j-th executed cycle
      is at least (j - i) intervals after the i-th. */
  lemma {:induction false} SpacedPairwise(last: real, times: seq<real>, i: nat, j: nat)
    requires Spaced(last, times)
    requires i < j < |times|
    ensures times[j] - times[i] >= (j - i) as real * PROCESS_INTERVAL
    decreases j
  {
    if j == i + 1 {
      SpacedSuffix(last, times, i);
    } else {
      SpacedPairwise(last, times, i, j - 1);
      SpacedSuffix(last, times, j - 1);
    }
  }

  lemma {:induction false} SpacedSuffix(last: real, times: seq<real>, k: nat)
    requires Spaced(last, times)
    requires k + 1 < |times|
    ensures times[k + 1] - times[k] >= PROCESS_INTERVAL
    decreases k
  {
    if k > 0 {
      SpacedSuffix(times[0], times[1..], k - 1);
    }
  }

  /** Ticks that all find a ready frame and come at least one interval apart each
      execute a cycle. */
  lemma {:induction false} SlowTicksAllExecute(last: real, ts: seq<Tick>)
    requires forall k :: 0 <= k < |ts| ==> FrameReady(ts[k].frame, true)
    requires |ts| > 0 ==> ts[0].time - last >= PROCESS_INTERVAL
    requires forall k :: 0 < k < |ts| ==> ts[k].time - ts[k - 1].time >= PROCESS_INTERVAL
    ensures |ExecutedTimes(last, true, ts)| == |ts|
    ensures forall k :: 0 <= k < |ts| ==> ExecutedTimes(last, true, ts)[k] == ts[k].time
    decreases |ts|
  {
    if |ts| > 0 {
      SlowTicksAllExecute(ts[0].time, ts[1..]);
    }
  }

  /** A tick less than one interval after the last executed cycle, or on a frame that is
      not ready, changes nothing but the reschedule log. */
  lemma SkippedTickChangesNothing(s: ViewState, scale: real, t: Tick)
    requires !FrameReady(t.frame, s.detector.Some?) || t.time - s.lastTimestamp < PROCESS_INTERVAL
    ensures DetectStep(s, scale, t) == s.(schedules := s.schedules + [SchedulerFor(t.frame)])
  {
  }

  /** A canvas element's width and height. */
  class Canvas {
    var width: nat
    var height: nat

    constructor ()
      ensures width == DEFAULT_CANVAS_WIDTH && height == DEFAULT_CANVAS_HEIGHT
    {
      width, height := DEFAULT_CANVAS_WIDTH, DEFAULT_CANVAS_HEIGHT;
    }
  }

  /** `ensureCanvasSize`: afterwards the canvas has the requested size; it is written
      only when a dimension differs, so a second call with the same size writes nothing. */
  method EnsureCanvasSize(canvas: Canvas, width: nat, height: nat) returns (wrote: bool)
    modifies canvas
    ensures canvas.width == width && canvas.height == height
    ensures wrote == NeedsResize(old(Size(canvas.width, canvas.height)), width, height)
    ensures !wrote ==> unchanged(canvas)
  {
    wrote := canvas.width != width || canvas.height != height;
    if wrote {
      canvas.width := width;
      canvas.height := height;
    }
  }

  /** The view's mutable state: the component's refs. */
  class View {
    const scale: real
    const canvas: Canvas
    const offscreen: Canvas
    var lastTimestamp: real
    var contextAcquired: bool
    var detector: Option<DetectorHandle>
    var mounted: bool
    var closed: set<DetectorHandle>
    var updates: seq<Update>
    var schedules: seq<Scheduler>

    ghost predicate Valid()
      reads this
    {
      canvas != offscreen
    }

    function State(): ViewState
      reads this, canvas, offscreen
    {
      ViewState(lastTimestamp, Size(offscreen.width, offscreen.height), Size(canvas.width, canvas.height),
                contextAcquired, detector, mounted, closed, updates, schedules)
    }

    /** Mounting the view; the `scale` prop defaults to 1. */
    constructor (scaleProp: Option<real>)
      ensures Valid() && State() == Mounted
      ensures scale == scaleProp.GetOr(1.0)
      ensures fresh(canvas) && fresh(offscreen)
    {
      scale := scaleProp.GetOr(1.0);
      canvas := new Canvas();
      offscreen := new Canvas();
      lastTimestamp, contextAcquired, detector, mounted, closed := 0.0, false, None, true, {};
      updates, schedules := [], [];
    }

    method ScheduleNext(frame: Frame)
      modifies this`schedules
      ensures schedules == old(schedules) + [SchedulerFor(frame)]
    {
      schedules := schedules + [SchedulerFor(frame)];
    }

    method OnUpdate(u: Update)
      modifies this`updates
      ensures updates == old(updates) + [u]
    {
      updates := updates + [u];
    }

    /** `detectFrame`. */
    method DetectFrame(t: Tick)
      requires Valid()
      modifies this, canvas, offscreen
      ensures Valid()
      ensures State() == DetectStep(old(State()), scale, t)
    {
      var frame := t.frame;
      if !frame.videoAttached || !frame.canvasAttached || detector.None?
        || frame.videoWidth == 0 || frame.videoHeight == 0
      {
        ScheduleNext(frame);
        return;
      }
      if t.time - lastTimestamp < PROCESS_INTERVAL {
        ScheduleNext(frame);
        return;
      }
      lastTimestamp := t.time;

      var scaled := ScaledSize(frame, scale);
      offscreen.width := scaled.width;
      offscreen.height := scaled.height;
      var landmarks := FirstFace(t.detection);
      if landmarks.Some? {
        OnUpdate(if TRACKED_LANDMARK < |landmarks.value| then Point(landmarks.value[TRACKED_LANDMARK])
                 else UndefinedPoint);
        if !contextAcquired {
          contextAcquired := t.contextAvailable;
        }
        if contextAcquired {
          var _ := EnsureCanvasSize(canvas, frame.videoWidth, frame.videoHeight);
        }
      } else {
        OnUpdate(NullPoint);
      }
      ScheduleNext(frame);
    }

    /** The end of `init`, after the detector has loaded. */
    method OnDetectorLoaded(handle: DetectorHandle) returns (stored: bool)
      modifies this`detector
      ensures stored == old(mounted)
      ensures State() == DetectorLoaded(old(State()), handle)
    {
      stored := mounted;
      if !mounted {
        return;
      }
      detector := Some(handle);
    }

    /** The effect's cleanup. */
    method Cleanup()
      modifies this`mounted, this`closed
      ensures State() == Unmount(old(State()))
    {
      mounted := false;
      if detector.Some? {
        closed := closed + {detector.value};
      }
    }
  }
}
