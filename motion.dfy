/**
  One particle's per-frame motion as pure functions: a random heading jitter,
  a pull toward the pointer whose strength falls off with distance and is
  capped at 1, a step along the new heading, and an edge snap that keeps the
  particle on the canvas.

  Square root and trigonometry are floating-point library calls; they enter as
  a `Math` record of functions, so the model fixes how their results are used
  and nothing about their values unless a lemma asks for it.
 */
module Motion {

  /** The library functions the motion uses. */
  datatype Math = Math(
    sqrt: real -> real,
    sin: real -> real,
    cos: real -> real,
    atan2: (real, real) -> real)

  /** `sqrt` is a real square root on non-negative arguments. */
  ghost predicate IsSqrt(m: Math) {
    forall v :: v >= 0.0 ==> m.sqrt(v) >= 0.0 && m.sqrt(v) * m.sqrt(v) == v
  }

  /** `sin` stays within [-1, 1]. */
  ghost predicate SinBounded(m: Math) {
    forall t :: -1.0 <= m.sin(t) <= 1.0
  }

  /** The kinematic state of one particle: position, heading and its own speed
      (drawn once at creation and never changed). */
  datatype Body = Body(x: real, y: real, angle: real, speed: real)

  /** The arguments of one move: pointer position, pointer sensitivity and the
      global speed factor. */
  datatype Drive = Drive(mouseX: int, mouseY: int, sensitivity: real, particleSpeed: real)

  function Max(a: real, b: real): real { if a < b then b else a }

  function Min(a: real, b: real): real { if b < a then b else a }

  /** The pointer distance used for the pull, floored at 1 so that the pull
      never divides by zero. */
  function PullDistance(dx: real, dy: real, m: Math): (d: real)
    ensures d >= 1.0
    ensures d >= m.sqrt(dx * dx + dy * dy)
  {
    Max(1.0, m.sqrt(dx * dx + dy * dy))
  }

  /** Pull strength toward the pointer: sensitivity * 100 / dist, capped at 1. */
  function Attraction(sensitivity: real, dist: real): (a: real)
    requires dist >= 1.0
    ensures a <= 1.0
    ensures sensitivity >= 0.0 ==> 0.0 <= a
  {
    Min(1.0, sensitivity * 100.0 / dist)
  }

  /** The edge rule, applied in the source's order: a coordinate below 0 is
      set to the extent, then one above the extent is set to 0. */
  function Wrap(v: real, extent: real): (r: real)
    ensures extent >= 0.0 ==> 0.0 <= r <= extent
    ensures 0.0 <= v <= extent ==> r == v
    ensures v < 0.0 ==> r == extent
    ensures extent >= 0.0 && v > extent ==> r == 0.0
  {
    var v1 := if v < 0.0 then extent else v;
    if v1 > extent then 0.0 else v1
  }

  /** The heading `angle` blended with the unit vector (dx, dy) / dist toward
      the pointer, with weights 1 - a and a, turned back into an angle. */
  function Blend(angle: real, dx: real, dy: real, dist: real, a: real, m: Math): real
    requires dist >= 1.0
  {
    m.atan2(m.sin(angle) * (1.0 - a) + dy / dist * a,
            m.cos(angle) * (1.0 - a) + dx / dist * a)
  }

  /** First stage of a move: the heading takes a random turn. */
  function Jittered(b: Body, jitter: real): Body {
    b.(angle := b.angle + jitter)
  }

  /** Second stage: the heading is pulled toward the pointer. */
  function Steered(b: Body, d: Drive, m: Math): Body {
    var dx := d.mouseX as real - b.x;
    var dy := d.mouseY as real - b.y;
    var dist := PullDistance(dx, dy, m);
    b.(angle := Blend(b.angle, dx, dy, dist, Attraction(d.sensitivity, dist), m))
  }

  /** Third stage: the particle steps along its heading by speed factor times its own speed. */
  function Advanced(b: Body, d: Drive, m: Math): Body {
    StepAlong(b, d.particleSpeed * b.speed, m)
  }

  /** A step of length `stepLength` along the heading. */
  function StepAlong(b: Body, stepLength: real, m: Math): Body {
    b.(x := b.x + m.cos(b.angle) * stepLength, y := b.y + m.sin(b.angle) * stepLength)
  }

  /** Last stage: a coordinate that left the canvas is snapped to the opposite edge. */
  function Snapped(b: Body, width: int, height: int): (r: Body)
    ensures width >= 0 && height >= 0 ==> InBounds(r, width, height)
  {
    b.(x := Wrap(b.x, width as real), y := Wrap(b.y, height as real))
  }

  predicate InBounds(b: Body, width: int, height: int) {
    0.0 <= b.x <= width as real && 0.0 <= b.y <= height as real
  }

  /** One move of a particle on a `width` x `height` canvas. */
  function Step(b: Body, width: int, height: int, d: Drive, jitter: real, m: Math): (r: Body)
    ensures width >= 0 && height >= 0 ==> InBounds(r, width, height)
    ensures r.speed == b.speed
  {
    Snapped(Advanced(Steered(Jittered(b, jitter), d, m), d, m), width, height)
  }

  // ---------------------------------------------------------------------------
  // Properties

  /** The pull weakens as the pointer gets farther away. */
  lemma AttractionFallsWithDistance(sensitivity: real, d1: real, d2: real)
    requires sensitivity >= 0.0 && 1.0 <= d1 <= d2
    ensures Attraction(sensitivity, d2) <= Attraction(sensitivity, d1)
  {
    var p := sensitivity * 100.0;
    assert p >= 0.0;
    assert p / d2 <= p / d1 by {
      assert p / d2 * d2 == p && p / d1 * d1 == p;
      assert p / d1 * d2 >= p / d1 * d1 by {
        assert p / d1 * (d2 - d1) >= 0.0;
      }
    }
  }

  /** The pull is at full strength exactly when the pointer is within
      100 * sensitivity of the particle. */
  lemma AttractionSaturatesIff(sensitivity: real, dist: real)
    requires dist >= 1.0
    ensures Attraction(sensitivity, dist) == 1.0 <==> sensitivity * 100.0 >= dist
  {
    var p := sensitivity * 100.0;
    assert p / dist * dist == p;
    if p >= dist {
      assert p / dist >= 1.0;
    } else {
      assert p / dist < 1.0;
    }
  }

  /** Applying the edge rule twice is the same as applying it once. */
  lemma WrapIdempotent(v: real, extent: real)
    requires extent >= 0.0
    ensures Wrap(Wrap(v, extent), extent) == Wrap(v, extent)
  {
  }

  /** A move snaps to the edge rather than wrapping around: overshooting the
      right edge by any amount lands exactly on 0, undershooting the left edge
      lands exactly on the extent, whatever the overshoot. */
  lemma WrapSnapsNotModulo(extent: real, overshoot: real)
    requires extent >= 0.0 && overshoot > 0.0
    ensures Wrap(extent + overshoot, extent) == 0.0
    ensures Wrap(-overshoot, extent) == extent
  {
  }

  /** The body after a sequence of moves. */
  function Steps(b: Body, width: int, height: int, drives: seq<Drive>, jitters: seq<real>, m: Math): Body
    requires |jitters| == |drives|
    decreases |drives|
  {
    if drives == [] then b
    else Steps(Step(b, width, height, drives[0], jitters[0], m), width, height, drives[1..], jitters[1..], m)
  }

  /** A particle that starts on the canvas stays on it, however many moves are made. */
  lemma {:induction false} StepsStayInBounds(b: Body, width: int, height: int, drives: seq<Drive>, jitters: seq<real>, m: Math)
    requires width >= 0 && height >= 0 && |jitters| == |drives|
    requires InBounds(b, width, height)
    ensures InBounds(Steps(b, width, height, drives, jitters, m), width, height)
    decreases |drives|
  {
    if drives != [] {
      StepsStayInBounds(Step(b, width, height, drives[0], jitters[0], m), width, height, drives[1..], jitters[1..], m);
    }
  }

  /** With a true square root the distance floor is exact: the pull distance
      is the Euclidean distance whenever that is at least 1. */
  lemma PullDistanceIsEuclidean(dx: real, dy: real, m: Math)
    requires IsSqrt(m)
    ensures PullDistance(dx, dy, m) * PullDistance(dx, dy, m) == Max(1.0, dx * dx + dy * dy)
  {
    var d2 := dx * dx + dy * dy;
    assert d2 >= 0.0;
    var r := m.sqrt(d2);
    assert r >= 0.0 && r * r == d2;
    if r < 1.0 {
      assert r * r < 1.0 by { assert r * r <= r * 1.0; }
    } else {
      assert r * r >= 1.0 by { assert r * r >= r * 1.0; }
    }
  }
}
