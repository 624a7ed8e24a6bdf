/** The 3D scene's camera control: each animation frame maps the face point to a
    world-space target and moves the camera a tenth of the way toward it; a resize
    updates the camera's aspect ratio. Arithmetic is exact (`real`). */
module ThreeScene {

  import opened Wrappers
  import opened Landmarks
  import opened Reals

  datatype Vec3 = Vec3(x: real, y: real, z: real)

  /** The camera position set when the scene is created. */
  const INITIAL_POSITION := Vec3(0.0, 1.6, 3.0)

  /** The fraction of the remaining distance covered per frame. */
  const LERP_ALPHA: real := 0.1

  /** The fraction of the distance that remains after one frame. */
  const REMAINING: real := 1.0 - LERP_ALPHA

  /** The world-space camera target for a normalized face point: x and depth grow with
      the point's, and the screen-y axis is flipped. */
  function Target(p: Landmark): (t: Vec3)
    ensures FacePointFor(t) == p
  {
    Vec3((p.x - 0.5) * 4.0, (0.5 - p.y) * 3.0 + 1.6, p.z * 5.0 + 3.0)
  }

  /** The face point that a camera target comes from. */
  function FacePointFor(t: Vec3): Landmark {
    Landmark(t.x / 4.0 + 0.5, 0.5 - (t.y - 1.6) / 3.0, (t.z - 3.0) / 5.0)
  }

  /** Three.js `Vector3.lerp(v, alpha)`: each coordinate moves by alpha times the difference,
      so a fraction 1 - alpha of its distance to `v` remains. */
  function Lerp(pos: Vec3, v: Vec3, alpha: real): (r: Vec3)
    ensures v.x - r.x == (1.0 - alpha) * (v.x - pos.x)
    ensures v.y - r.y == (1.0 - alpha) * (v.y - pos.y)
    ensures v.z - r.z == (1.0 - alpha) * (v.z - pos.z)
    ensures alpha == 0.0 ==> r == pos
    ensures alpha == 1.0 ==> r == v
  {
    Vec3(pos.x + (v.x - pos.x) * alpha, pos.y + (v.y - pos.y) * alpha, pos.z + (v.z - pos.z) * alpha)
  }

  /** The camera position after one `animate` frame: unchanged when there is no face point;
      otherwise nine tenths of each coordinate's distance to the target remains, and a
      camera already at the target stays there. */
  function AnimateStep(pos: Vec3, facePoint: Option<Landmark>): (r: Vec3)
    ensures facePoint.None? ==> r == pos
    ensures facePoint.Some? ==> var t := Target(facePoint.value);
      && t.x - r.x == REMAINING * (t.x - pos.x)
      && t.y - r.y == REMAINING * (t.y - pos.y)
      && t.z - r.z == REMAINING * (t.z - pos.z)
    ensures facePoint.Some? && pos == Target(facePoint.value) ==> r == pos
  {
    match facePoint
    case None => pos
    case Some(p) => Lerp(pos, Target(p), LERP_ALPHA)
  }

  /** The camera position after n frames with the same face point. */
  function Frames(pos: Vec3, facePoint: Option<Landmark>, n: nat): Vec3
    decreases n
  {
    if n == 0 then pos else AnimateStep(Frames(pos, facePoint, n - 1), facePoint)
  }

  function Pow(b: real, n: nat): real
    decreases n
  {
    if n == 0 then 1.0 else b * Pow(b, n - 1)
  }

  function Abs(x: real): real {
    if x < 0.0 then -x else x
  }

  /** `width / height`; None when height is 0 and the quotient is not a finite number. */
  function AspectRatio(width: nat, height: nat): (r: Option<real>)
    ensures r.None? <==> height == 0
    ensures r.Some? ==> r.value * height as real == width as real
  {
    if height == 0 then None else Some(width as real / height as real)
  }

  // ---------------------------------------------------------------------------
  // Properties

  /** The mapping is one-to-one: every target comes from exactly one face point. */
  lemma TargetInverse(p: Landmark, t: Vec3)
    ensures FacePointFor(Target(p)) == p
    ensures Target(FacePointFor(t)) == t
  {
  }

  /** A centred face maps to the camera's initial position. */
  lemma CentredFaceIsInitialPosition()
    ensures Target(Landmark(0.5, 0.5, 0.0)) == INITIAL_POSITION
  {
  }

  /** The target's x and z grow with the point's x and z; its y falls as the point's y grows. */
  lemma TargetMonotone(p: Landmark, q: Landmark)
    ensures p.x < q.x ==> Target(p).x < Target(q).x
    ensures p.y < q.y ==> Target(p).y > Target(q).y
    ensures p.z < q.z ==> Target(p).z < Target(q).z
  {
  }

  /** After n frames with a constant face point, each coordinate's distance to the target
      is 0.9^n times the initial one; without a face point the camera does not move. */
  lemma {:induction false} FramesDistance(pos: Vec3, facePoint: Option<Landmark>, n: nat)
    ensures facePoint.None? ==> Frames(pos, facePoint, n) == pos
    ensures facePoint.Some? ==>
      var t, now := Target(facePoint.value), Frames(pos, facePoint, n);
      && t.x - now.x == Pow(REMAINING, n) * (t.x - pos.x)
      && t.y - now.y == Pow(REMAINING, n) * (t.y - pos.y)
      && t.z - now.z == Pow(REMAINING, n) * (t.z - pos.z)
    decreases n
  {
    if n > 0 {
      FramesDistance(pos, facePoint, n - 1);
      if facePoint.Some? {
        var t, prev := Target(facePoint.value), Frames(pos, facePoint, n - 1);
        var now := AnimateStep(prev, facePoint);
        assert t.x - now.x == REMAINING * (t.x - prev.x);
        assert t.y - now.y == REMAINING * (t.y - prev.y);
        assert t.z - now.z == REMAINING * (t.z - prev.z);
        ScaleAssoc(REMAINING, Pow(REMAINING, n - 1), t.x - pos.x);
        ScaleAssoc(REMAINING, Pow(REMAINING, n - 1), t.y - pos.y);
        ScaleAssoc(REMAINING, Pow(REMAINING, n - 1), t.z - pos.z);
      }
    }
  }

  lemma ScaleAssoc(a: real, b: real, c: real)
    ensures a * (b * c) == (a * b) * c
  {
  }

  lemma {:induction false} PowUnit(n: nat)
    ensures 0.0 < Pow(REMAINING, n) <= 1.0
    decreases n
  {
    if n > 0 {
      PowUnit(n - 1);
    }
  }

  /** The camera never overshoots: after any number of frames each coordinate lies on
      the same side of the target as it started, no farther from it. */
  lemma {:induction false} FramesApproach(pos: Vec3, p: Landmark, n: nat)
    ensures var t, now := Target(p), Frames(pos, Some(p), n);
      Approaches(t.x, now.x, pos.x) && Approaches(t.y, now.y, pos.y) && Approaches(t.z, now.z, pos.z)
  {
    FramesDistance(pos, Some(p), n);
    PowUnit(n);
    VecApproach(Pow(REMAINING, n), Target(p), Frames(pos, Some(p), n), pos);
  }

  lemma VecApproach(k: real, t: Vec3, now: Vec3, start: Vec3)
    requires 0.0 < k <= 1.0
    requires t.x - now.x == k * (t.x - start.x)
    requires t.y - now.y == k * (t.y - start.y)
    requires t.z - now.z == k * (t.z - start.z)
    ensures Approaches(t.x, now.x, start.x) && Approaches(t.y, now.y, start.y) && Approaches(t.z, now.z, start.z)
  {
    AxisApproach(k, t.x, now.x, start.x);
    AxisApproach(k, t.y, now.y, start.y);
    AxisApproach(k, t.z, now.z, start.z);
  }

  /** `now` is no farther from `target` than `start` was, and on the same side of it. */
  predicate Approaches(target: real, now: real, start: real) {
    Abs(target - now) <= Abs(target - start) && (target - now) * (target - start) >= 0.0
  }

  lemma AxisApproach(k: real, target: real, now: real, start: real)
    requires 0.0 < k <= 1.0
    requires target - now == k * (target - start)
    ensures Approaches(target, now, start)
  {
    var d, e := target - start, target - now;
    if d >= 0.0 {
      NonnegProduct(k, d);
      NonnegProduct(1.0 - k, d);
      NonnegProduct(e, d);
    } else {
      NonnegProduct(k, -d);
      NonnegProduct(1.0 - k, -d);
      NonnegProduct(-e, -d);
    }
  }

  /** The scene's camera and renderer, updated in place by the effect's callbacks. The
      face point is the one the effect captured. */
  class Scene {
    const facePoint: Option<Landmark>
    var position: Vec3
    var aspect: Option<real>
    var rendererSize: (nat, nat)
    var frames: nat

    /** Scene setup, for a mount element of the given size. */
    constructor (facePoint: Option<Landmark>, width: nat, height: nat)
      ensures this.facePoint == facePoint
      ensures position == INITIAL_POSITION && aspect == AspectRatio(width, height)
      ensures rendererSize == (width, height) && frames == 0
    {
      this.facePoint := facePoint;
      position := INITIAL_POSITION;
      aspect := AspectRatio(width, height);
      rendererSize := (width, height);
      frames := 0;
    }

    /** One `animate` frame: move the camera toward the face point's target, render and
      request the next frame. */
    method Animate()
      modifies this
      ensures position == AnimateStep(old(position), facePoint)
      ensures aspect == old(aspect) && rendererSize == old(rendererSize)
      ensures frames == old(frames) + 1
    {
      if facePoint.Some? {
        var t := Target(facePoint.value);
        position := Lerp(position, t, LERP_ALPHA);
      }
      frames := frames + 1;
    }

    /** `onResize`: with the mount element present, the renderer takes its size and the
        camera its aspect ratio; otherwise nothing changes. */
    method OnResize(mountAttached: bool, width: nat, height: nat)
      modifies this
      ensures mountAttached ==> rendererSize == (width, height) && aspect == AspectRatio(width, height)
      ensures !mountAttached ==> rendererSize == old(rendererSize) && aspect == old(aspect)
      ensures position == old(position) && frames == old(frames)
    {
      if !mountAttached {
        return;
      }
      rendererSize := (width, height);
      aspect := AspectRatio(width, height);
    }
  }
}
