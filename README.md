# Face-landmark parallax demo: a verified model of its core logic

The demo feeds a webcam into a face-landmark detector. It uses one tracked landmark,
the point between the eyes (index 168), to move a Three.js camera. Four pieces of it
are discrete or real-arithmetic logic, and this project models them in Dafny:

- **FaceBridge** (`faceBridge.js`): a SharedWorker router. It keeps the connected
  ports in connection order and at most one port registered as the *iframe* port.
  `registerIframe` sets that port, `frame` goes to the iframe port, and `result` goes
  to every other port. `postMessage` is modelled as appending a `Delivery` to one send
  log. `SentTo(log, p)` is port p's outbox, and the log order shows the order of sends.
  Message payloads are structured-clone values (`JsValues.Value`). Destructuring
  `{type, data}` throws on null or undefined. Object spread copies an object's fields,
  or the index-keyed elements of an array or string.
- **FaceLandmarkerView** (`FaceLandmarkerView.tsx`): the detection tick. Its inputs are
  the timestamp, the page (whether the elements are attached, the video size, and
  whether `requestVideoFrameCallback` exists), the detector's answer and whether a 2D
  context can be had. The `onUpdate` calls and the `scheduleNext` requests are logs.
  The class `View` holds the component's refs. The pure `DetectStep` specifies one tick;
  `Ticks` and `ExecutedTimes` describe runs of ticks.
- **App** (`App.tsx`): `getScaleFromUrl`, applied to the result of `parseFloat`.
- **ThreeScene** (`ThreeScene.tsx`): maps the face point to a camera target and moves
  the camera 10% of the way toward it each animation frame. A resize sets the aspect
  ratio. The arithmetic is over `real`.

Facts about the code that the model follows:

- The code has no smoothing filter and no view-offset or focal-length mapping.
- It publishes the raw landmark 168.
- It maps with `x = (p.x-0.5)*4`, `y = (0.5-p.y)*3+1.6` and `z = p.z*5+3`.
- The processing interval is `1000/30` ms. The comment beside it says 15 FPS.

Three behaviours of the code that the model makes explicit:

- An offscreen canvas dimension is a WebIDL `unsigned long`. The surface therefore gets
  `videoWidth*scale` truncated to whole pixels (`ScaledPixelsBounds`), not the exact
  product.
- When the first face has fewer than 169 landmarks, `onUpdate` receives `undefined`
  rather than a point or `null` (`Published`).
- A detector whose load finishes after cleanup is neither stored nor closed
  (`LateDetectorIsNeitherStoredNorClosed`).

## Model

| member | source | states |
|---|---|---|
| JsValues.Destructure | mediapipe-facelandmarks/src/faceBridge.js:10 | destructuring fails exactly for null and undefined; otherwise it yields the `type` and `data` properties, or undefined when absent |
| JsValues.SpreadFields | mediapipe-facelandmarks/src/faceBridge.js:15 | spreading an object copies its fields; spreading a number, a boolean, null or undefined contributes nothing |
| JsValues.WithSpread | mediapipe-facelandmarks/src/faceBridge.js:15 | `{key: value, ...v}` has exactly the key plus the spread keys; spread fields win on a clash; the key keeps its value otherwise |
| FaceBridge.FrameMessage | mediapipe-facelandmarks/src/faceBridge.js:15 | the forwarded frame carries every field of `data`; `type` is "frame" unless `data` has its own `type`, which then overrides it |
| FaceBridge.ResultMessage | mediapipe-facelandmarks/src/faceBridge.js:19 | the broadcast message has exactly the keys `type` and `data`, and a receiver destructuring it gets `type` "result" and the original `data` back |
| FaceBridge.Classify | mediapipe-facelandmarks/src/faceBridge.js:10-16 | routing throws exactly on null/undefined event data; each route matches the message's `type` string and carries its `data` |
| FaceBridge.Connect | mediapipe-facelandmarks/src/faceBridge.js:5-7 | a connection appends exactly its own port at the end, changes nothing else, and keeps the ports distinct when the port is new |
| FaceBridge.Handle | mediapipe-facelandmarks/src/faceBridge.js:9-22 | no message handler changes the port list; the send log only grows; a well-formed bridge stays well-formed |
| FaceBridge.ExceptMembers | mediapipe-facelandmarks/src/faceBridge.js:17-19 | the ports the result loop posts to are exactly the connected ports other than the iframe; with no iframe, all of them in order |
| FaceBridge.ResultDeliveriesInOrder | mediapipe-facelandmarks/src/faceBridge.js:17-21 | the result loop's sends are the non-iframe ports in connection order, each with the same message |
| FaceBridge.ResultDeliveriesSentTo | mediapipe-facelandmarks/src/faceBridge.js:17-21 | over distinct ports, each non-iframe port gets the result exactly once; the iframe and unconnected ports get nothing |
| FaceBridge.RegisterReplacesIframe | mediapipe-facelandmarks/src/faceBridge.js:12-13 | `registerIframe` makes the sender the iframe port, replacing any earlier one, and changes nothing else |
| FaceBridge.FrameGoesToIframeOnly | mediapipe-facelandmarks/src/faceBridge.js:14-15 | a frame goes once to the iframe port and to no other port; with no iframe it is dropped and the state is unchanged |
| FaceBridge.ResultBroadcast | mediapipe-facelandmarks/src/faceBridge.js:16-21 | a result goes once to every connected non-iframe port, the sender included, in connection order; the iframe gets none |
| FaceBridge.OtherMessagesChangeNothing | mediapipe-facelandmarks/src/faceBridge.js:9-22 | null/undefined event data or any other type leaves ports, iframe and outboxes unchanged |
| FaceBridge.RunShape | mediapipe-facelandmarks/src/faceBridge.js:2-24 | over any run of events, the port list is the connected ports in order, the send log only grows, and the iframe is the last port that registered |
| FaceBridge.Bridge.constructor | mediapipe-facelandmarks/src/faceBridge.js:2-3 | the worker starts with no ports, no iframe and nothing sent |
| FaceBridge.Bridge.OnConnect | mediapipe-facelandmarks/src/faceBridge.js:5-7 | the in-place `ports.push` appends the new port and keeps the bridge well-formed |
| FaceBridge.Bridge.Post | mediapipe-facelandmarks/src/faceBridge.js:15-19 | a `postMessage` appends one delivery of the message to that port, and nothing else is sent |
| FaceBridge.Bridge.OnMessage | mediapipe-facelandmarks/src/faceBridge.js:9-22 | the handler, with its `forEach` loop, produces exactly the state `Handle` specifies and keeps the bridge well-formed |
| FaceLandmarkerView.SchedulerFor | mediapipe-facelandmarks/src/FaceLandmarkerView.tsx:96-103 | the next tick uses the video frame callback exactly when the video is attached and offers it, else an animation frame |
| FaceLandmarkerView.FirstFace | mediapipe-facelandmarks/src/FaceLandmarkerView.tsx:75 | `faceLandmarks?.[0]` is present exactly when the result has at least one face, and is that face's landmarks |
| FaceLandmarkerView.Published | mediapipe-facelandmarks/src/FaceLandmarkerView.tsx:75-77 | `onUpdate` gets null exactly when no face is found, and landmark 168 of the first face when it exists |
| FaceLandmarkerView.FrameReady | mediapipe-facelandmarks/src/FaceLandmarkerView.tsx:54 | a frame is not ready exactly when the video or canvas is missing, no detector is loaded, or a video dimension is 0; a ready frame has the video attached, so the reschedule depends only on frame-callback support |
| FaceLandmarkerView.Executes | mediapipe-facelandmarks/src/FaceLandmarkerView.tsx:54-63 | a tick runs a cycle exactly when the frame is ready and at least `PROCESS_INTERVAL` has passed since the last cycle, so an executed tick's time is strictly later than the last one |
| FaceLandmarkerView.ToUnsignedLong | mediapipe-facelandmarks/src/FaceLandmarkerView.tsx:67-68 | a value stored into a canvas dimension lies in [0, 2^32) |
| FaceLandmarkerView.Scaled | mediapipe-facelandmarks/src/FaceLandmarkerView.tsx:65-66 | at a scale in (0,1] `video*scale` lies between 0 and the video's dimension, and equals it at scale 1 |
| FaceLandmarkerView.ScaledSize | mediapipe-facelandmarks/src/FaceLandmarkerView.tsx:65-68 | at a scale in (0,1] the offscreen surface is no larger than the video in either dimension, and is the video's own size at scale 1 |
| FaceLandmarkerView.DetectStep | mediapipe-facelandmarks/src/FaceLandmarkerView.tsx:48-94 | every tick reschedules once; a skipped tick changes nothing else; an executed one records the time, sizes the offscreen surface, publishes once, and resizes the canvas only to the video size |
| FaceLandmarkerView.SkippedTickChangesNothing | mediapipe-facelandmarks/src/FaceLandmarkerView.tsx:54-62 | a tick with a missing element or detector, a zero video dimension, or less than the interval elapsed changes only the reschedule log |
| FaceLandmarkerView.ScaledPixelsBounds | mediapipe-facelandmarks/src/FaceLandmarkerView.tsx:65-68 | at a scale in (0,1] the offscreen dimension is `video*scale` truncated, at most the video's, and exactly the video's at scale 1 |
| FaceLandmarkerView.TicksCount | mediapipe-facelandmarks/src/FaceLandmarkerView.tsx:54-63 | over any run, one reschedule per tick, one `onUpdate` per executed cycle, and `lastTimestamp` is the last executed time |
| FaceLandmarkerView.ExecutedAreSpaced | mediapipe-facelandmarks/src/FaceLandmarkerView.tsx:59-63 | each executed cycle is at least the processing interval after the previous one, and the first one after the initial timestamp |
| FaceLandmarkerView.SpacedPairwise | mediapipe-facelandmarks/src/FaceLandmarkerView.tsx:20 | the j-th executed cycle is at least (j-i) intervals after the i-th |
| FaceLandmarkerView.SlowTicksAllExecute | mediapipe-facelandmarks/src/FaceLandmarkerView.tsx:59-63 | ready ticks that are at least one interval apart all execute, at their own times |
| FaceLandmarkerView.DetectorLoaded | mediapipe-facelandmarks/src/FaceLandmarkerView.tsx:122-123 | the loaded detector is stored only while mounted; after cleanup, loading changes nothing |
| FaceLandmarkerView.Unmount | mediapipe-facelandmarks/src/FaceLandmarkerView.tsx:139-141 | cleanup unmounts and closes the stored detector, if any, leaving the logs alone |
| FaceLandmarkerView.LateDetectorIsNeitherStoredNorClosed | mediapipe-facelandmarks/src/FaceLandmarkerView.tsx:122 | a detector whose load finishes after cleanup is not stored and is not closed |
| FaceLandmarkerView.EnsureCanvasSize | mediapipe-facelandmarks/src/FaceLandmarkerView.tsx:41-46 | afterwards the canvas has the requested size; it writes only when a dimension differs, so a repeated call writes nothing |
| FaceLandmarkerView.View.constructor | mediapipe-facelandmarks/src/FaceLandmarkerView.tsx:13-19 | the view starts mounted, with no detector, timestamp 0, default canvas sizes and empty logs; `scale` defaults to 1 |
| FaceLandmarkerView.View.ScheduleNext | mediapipe-facelandmarks/src/FaceLandmarkerView.tsx:96-103 | one scheduling request is appended, of the kind the video element supports |
| FaceLandmarkerView.View.OnUpdate | mediapipe-facelandmarks/src/FaceLandmarkerView.tsx:77-89 | each `onUpdate` call appends exactly its argument to the update log |
| FaceLandmarkerView.View.DetectFrame | mediapipe-facelandmarks/src/FaceLandmarkerView.tsx:48-94 | the in-place tick produces exactly the state `DetectStep` specifies |
| FaceLandmarkerView.View.OnDetectorLoaded | mediapipe-facelandmarks/src/FaceLandmarkerView.tsx:122-123 | the handle is stored exactly when the view is still mounted |
| FaceLandmarkerView.View.Cleanup | mediapipe-facelandmarks/src/FaceLandmarkerView.tsx:139-141 | the in-place cleanup produces the state `Unmount` specifies |
| App.ScaleFromUrl | mediapipe-facelandmarks/src/App.tsx:9-13 | the scale always lies in (0,1]; a parsed value in (0,1] is returned unchanged; anything else gives 1 |
| App.ScaleFallback | mediapipe-facelandmarks/src/App.tsx:10-11 | the result is 1 exactly for NaN, an infinity, a value at most 0, or a value of at least 1 |
| App.ScaleFromUrlIdempotent | mediapipe-facelandmarks/src/App.tsx:10-13 | validating the result again returns it unchanged |
| ThreeScene.TargetInverse | mediapipe-facelandmarks/src/ThreeScene.tsx:72-74 | the face-to-target mapping is a bijection; `FacePointFor` inverts it both ways |
| ThreeScene.Target | mediapipe-facelandmarks/src/ThreeScene.tsx:72-74 | the face point can always be recovered from its camera target |
| ThreeScene.Lerp | mediapipe-facelandmarks/src/ThreeScene.tsx:76 | `lerp(v, alpha)` leaves a fraction 1-alpha of each coordinate's distance to `v`; alpha 0 keeps the position and alpha 1 reaches `v` |
| ThreeScene.AnimateStep | mediapipe-facelandmarks/src/ThreeScene.tsx:71-76 | without a face point the camera holds; with one, 0.9 of each axis's distance to the target remains, and a camera at the target stays put |
| ThreeScene.CentredFaceIsInitialPosition | mediapipe-facelandmarks/src/ThreeScene.tsx:30 | the centred face (0.5, 0.5, 0) maps to the initial camera position (0, 1.6, 3) |
| ThreeScene.TargetMonotone | mediapipe-facelandmarks/src/ThreeScene.tsx:72-74 | the target's x and z increase with the point's; its y decreases as the point's y grows |
| ThreeScene.FramesDistance | mediapipe-facelandmarks/src/ThreeScene.tsx:67-76 | after n frames with a constant face point each axis's distance is 0.9^n of the initial one; with no face point the camera holds |
| ThreeScene.FramesApproach | mediapipe-facelandmarks/src/ThreeScene.tsx:76 | the camera never overshoots: after any number of frames, each axis is no farther from the target and on the same side |
| ThreeScene.AspectRatio | mediapipe-facelandmarks/src/ThreeScene.tsx:110 | the aspect is `width/height` (times height gives width); a zero height gives no finite aspect |
| ThreeScene.Scene.constructor | mediapipe-facelandmarks/src/ThreeScene.tsx:29-35 | the camera starts at (0, 1.6, 3) with aspect `width/height`; the renderer takes the mount size |
| ThreeScene.Scene.Animate | mediapipe-facelandmarks/src/ThreeScene.tsx:67-97 | one frame moves the camera by `AnimateStep` (held when there is no face point) and requests the next frame |
| ThreeScene.Scene.OnResize | mediapipe-facelandmarks/src/ThreeScene.tsx:103-112 | with the mount element present, the renderer takes the new size and the camera the aspect `width/height`; otherwise nothing changes |

## Left out

- MessagePort transport and structured cloning: `postMessage` is an append to the send log.
- JsValues.SpreadFields: a string spreads one key per Dafny `char`, a Unicode scalar value. JavaScript spreads one key per UTF-16 code unit, so a character outside the Basic Multilingual Plane gives two keys there and one here.
- JavaScript object key order: objects are maps, so where `type` sits among the keys of a forwarded frame is not modelled. Only the values are.
- The face detector: `FilesetResolver`, `createFromOptions` and `detectForVideo` are foreign, asynchronous calls. Their result is a tick input, and a loaded detector is an opaque handle.
- DetectStep: the detector call always returns a result. `detectFrame` is `async`, so if `detectForVideo` throws (for example on a detector that cleanup has closed), the tick ends before `scheduleNext` and the loop stops. The model does not capture that exit.
- Camera acquisition and playback: `getUserMedia`, `srcObject`, `onloadedmetadata` and `play()`, which starts the first tick. These are device I/O.
- The scheduling and interleaving of `requestVideoFrameCallback` and `requestAnimationFrame`: a reschedule is a log entry, not a concurrent callback.
- The `cancelAnimationFrame` in the view's cleanup is not modelled. That cleanup does not cancel a pending `requestVideoFrameCallback`.
- The effects re-running when their dependencies change (`onUpdate`/`scale` for the view, `facePoint` for the scene) is not modelled. The model covers one effect instance.
- The scene effect's early return when the mount element is missing (ThreeScene.tsx:18) is not modelled.
- The `animate` guard (ThreeScene.tsx:68): renderer, camera and scene are always set before `animate` first runs, so the guard always passes and is not modelled.
- All drawing: the landmark dots, `drawImage` into the offscreen surface, `clearRect`, the camera-coordinates text sprite with `toFixed`, `render` and `dispose`. These are graphics with no state the core reads.
- `lookAt` and `updateProjectionMatrix`: Three.js matrix internals.
- `URLSearchParams` and `parseFloat`: library parsing. Their outcome is the `ParsedNumber` input.
- IEEE floating point: arithmetic is exact `real`. NaN and the infinities appear only in `ParsedNumber`, and as a missing aspect ratio.
- App's wiring passes the ref object `facePointRef` rather than its current value to `ThreeScene`. The scene is modelled against its declared prop, a landmark or null.
- `console.log` and `console.warn` output.
- vite.config.js: build configuration with no logic.
