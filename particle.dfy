/**
  A particle of the animation and the states of whole swarms of them.

  A `Particle` keeps its position, heading and the handles of the links drawn
  to it this frame, and moves itself once per frame. The predicates below
  describe a swarm part-way through a frame: which particles have moved and
  which links are on the canvas.
 */
module Particles {
  import opened Motion
  import opened Palette
  import opened Drawing
  import opened Links

  /** The random draws that start a particle: a position with integer
      coordinates on the canvas, a speed and a heading. */
  datatype Spawn = Spawn(x: int, y: int, speed: real, angle: real)

  /** The radius of the oval drawn for a particle. */
  const ParticleSize: int := 3

  /** The oval drawn for a particle at (x, y). */
  function OvalAt(x: real, y: real, fill: string): Shape {
    Oval(x - ParticleSize as real, y - ParticleSize as real, x + ParticleSize as real, y + ParticleSize as real, fill)
  }

  class Particle {
    const width: int
    const height: int
    const size: int
    var x: real
    var y: real
    const speed: real
    var angle: real
    const swarmId: int
    const color: string
    /** The handle of the particle's oval. */
    const id: Handle
    /** The handles of the links drawn to this particle in the current frame. */
    var links: seq<Handle>

    ghost function State(): Body
      reads this
    {
      Body(x, y, angle, speed)
    }

    /** A particle of swarm `swarmId`, started from the draws `spawn`, with its
        oval created on `canvas`. */
    constructor (canvas: Canvas, width: int, height: int, swarmId: int, spawn: Spawn)
      modifies canvas
      ensures this.width == width && this.height == height && size == ParticleSize
      ensures State() == Launch(spawn)
      ensures this.swarmId == swarmId && color == SwarmColor(swarmId) && links == []
      ensures id == old(|canvas.shapes|)
      ensures canvas.shapes == old(canvas.shapes) + [OvalAt(x, y, color)]
      ensures canvas.deleted == old(canvas.deleted)
    {
      this.width := width;
      this.height := height;
      this.size := ParticleSize;
      this.x := spawn.x as real;
      this.y := spawn.y as real;
      this.speed := spawn.speed;
      this.angle := spawn.angle;
      this.swarmId := swarmId;
      var fill := SwarmColor(swarmId);
      this.color := fill;
      var oval := canvas.CreateOval(spawn.x as real - ParticleSize as real, spawn.y as real - ParticleSize as real,
                                    spawn.x as real + ParticleSize as real, spawn.y as real + ParticleSize as real, fill);
      this.id := oval;
      this.links := [];
    }

    /** One move: jitter the heading, steer it toward the pointer, step along
        it, and snap a coordinate that left the canvas to the opposite edge. */
    method Move(mouseX: int, mouseY: int, cursorSensitivity: real, particleSpeed: real, jitter: real, m: Math)
      modifies this
      ensures State() == Step(old(State()), width, height, Drive(mouseX, mouseY, cursorSensitivity, particleSpeed), jitter, m)
      ensures width >= 0 && height >= 0 ==> InBounds(State(), width, height)
      ensures links == old(links)
    {
      ghost var drive := Drive(mouseX, mouseY, cursorSensitivity, particleSpeed);
      ghost var stage := Jittered(State(), jitter);
      angle := angle + jitter;
      assert State() == stage;

      var dx := mouseX as real - x;
      var dy := mouseY as real - y;
      var dist := PullDistance(dx, dy, m);

      var attraction := Attraction(cursorSensitivity, dist);
      stage := Steered(stage, drive, m);
      angle := Blend(angle, dx, dy, dist, attraction, m);
      assert State() == stage;

      var speedFactor := particleSpeed * speed;
      var moved := StepAlong(Body(x, y, angle, speed), speedFactor, m);
      stage := Advanced(stage, drive, m);
      x, y := moved.x, moved.y;
      assert State() == stage;

      stage := Snapped(stage, width, height);
      if x < 0.0 { x := width as real; }
      if x > width as real { x := 0.0; }
      if y < 0.0 { y := height as real; }
      if y > height as real { y := 0.0; }
      assert State() == stage;
    }
  }

  /** The state a particle starts in. */
  function Launch(spawn: Spawn): Body {
    Body(spawn.x as real, spawn.y as real, spawn.angle, spawn.speed)
  }

  /** The start position lies on the canvas, as `randint(0, width)` and
      `randint(0, height)` guarantee. */
  predicate OnCanvas(spawn: Spawn, width: int, height: int) {
    0 <= spawn.x <= width && 0 <= spawn.y <= height
  }

  /** No particle appears twice in one swarm. */
  ghost predicate DistinctIn(sw: seq<Particle>) {
    forall a, b :: 0 <= a < b < |sw| ==> sw[a] != sw[b]
  }

  /** No particle appears twice in the swarms: each swarm lists its particles
      once, and every particle carries the number of its swarm. */
  ghost predicate Distinct(swarms: seq<seq<Particle>>) {
    (forall s :: 0 <= s < |swarms| ==> DistinctIn(swarms[s]))
    && forall s, k :: 0 <= s < |swarms| && 0 <= k < |swarms[s]| ==> swarms[s][k].swarmId == s
  }

  /** With no particle twice, no particle of another swarm is in swarm `s`. */
  lemma DisjointFrom(swarms: seq<seq<Particle>>, s: nat)
    requires Distinct(swarms) && s < |swarms|
    ensures forall t, p :: 0 <= t < |swarms| && t != s && p in swarms[t] ==> p !in swarms[s]
  {
    forall t, p | 0 <= t < |swarms| && t != s && p in swarms[t]
      ensures p !in swarms[s]
    {
      var k :| 0 <= k < |swarms[t]| && swarms[t][k] == p;
      assert p.swarmId == t;
    }
  }

  /** Every particle of the swarms. */
  ghost function Members(swarms: seq<seq<Particle>>): set<Particle> {
    set s, k | 0 <= s < |swarms| && 0 <= k < |swarms[s]| :: swarms[s][k]
  }

  /** The states of the particles of one swarm. */
  ghost function Bodies(sw: seq<Particle>): (r: seq<Body>)
    reads set p | p in sw
    ensures |r| == |sw| && forall k :: 0 <= k < |sw| ==> r[k] == sw[k].State()
  {
    if sw == [] then [] else Bodies(sw[..|sw| - 1]) + [sw[|sw| - 1].State()]
  }

  /** What tearing down `sw` deletes: each particle's oval, then its links. */
  ghost function Teardown(sw: seq<Particle>): seq<Handle>
    reads set p | p in sw
  {
    if sw == [] then [] else Teardown(sw[..|sw| - 1]) + [sw[|sw| - 1].id] + sw[|sw| - 1].links
  }

  /** What tearing down all the swarms deletes, swarm by swarm. */
  ghost function AllTeardown(swarms: seq<seq<Particle>>): seq<Handle>
    reads set sw, p | sw in swarms && p in sw :: p
  {
    if swarms == [] then []
    else AllTeardown(swarms[..|swarms| - 1]) + Teardown(swarms[|swarms| - 1])
  }

  /** Tearing down `sw` deletes exactly the ovals of its particles and the
      links they hold. */
  lemma {:induction false} TeardownExactly(sw: seq<Particle>, h: Handle)
    ensures h in Teardown(sw) <==> exists k :: 0 <= k < |sw| && (h == sw[k].id || h in sw[k].links)
    decreases |sw|
  {
    if sw != [] {
      var n := |sw| - 1;
      var init := sw[..n];
      var last := sw[n];
      assert Teardown(sw) == Teardown(init) + [last.id] + last.links;
      TeardownExactly(init, h);
      if h in Teardown(sw) {
        if h in Teardown(init) {
          var k :| 0 <= k < |init| && (h == init[k].id || h in init[k].links);
          assert sw[k] == init[k];
        } else {
          assert h == last.id || h in last.links;
        }
      }
      if exists k :: 0 <= k < |sw| && (h == sw[k].id || h in sw[k].links) {
        var k :| 0 <= k < |sw| && (h == sw[k].id || h in sw[k].links);
        if k < n {
          assert init[k] == sw[k];
          assert h in Teardown(init);
        }
        assert h in Teardown(sw);
      }
    }
  }

  /** Tearing down all the swarms deletes exactly the ovals of their particles
      and the links those hold. */
  lemma {:induction false} AllTeardownExactly(swarms: seq<seq<Particle>>, h: Handle)
    ensures h in AllTeardown(swarms) <==>
      exists s, k :: 0 <= s < |swarms| && 0 <= k < |swarms[s]| && (h == swarms[s][k].id || h in swarms[s][k].links)
    decreases |swarms|
  {
    if swarms != [] {
      var n := |swarms| - 1;
      var init := swarms[..n];
      assert AllTeardown(swarms) == AllTeardown(init) + Teardown(swarms[n]);
      AllTeardownExactly(init, h);
      TeardownExactly(swarms[n], h);
      if h in AllTeardown(swarms) {
        if h in AllTeardown(init) {
          var s, k :| 0 <= s < |init| && 0 <= k < |init[s]| && (h == init[s][k].id || h in init[s][k].links);
          assert swarms[s] == init[s];
        } else {
          var k :| 0 <= k < |swarms[n]| && (h == swarms[n][k].id || h in swarms[n][k].links);
          assert 0 <= n < |swarms|;
        }
      }
      if exists s, k :: 0 <= s < |swarms| && 0 <= k < |swarms[s]| && (h == swarms[s][k].id || h in swarms[s][k].links) {
        var s, k :| 0 <= s < |swarms| && 0 <= k < |swarms[s]| && (h == swarms[s][k].id || h in swarms[s][k].links);
        if s < n {
          assert init[s] == swarms[s];
          assert h in AllTeardown(init);
        } else {
          assert h in Teardown(swarms[n]);
        }
        assert h in AllTeardown(swarms);
      }
    }
  }

  /** The first `|ps|` links of a swarm are drawn: every particle of `swarm`
      holds the handles of its pairs among `ps`, and `canvas` holds `shapes`
      followed by the first `|ps|` of the swarm's `lines`. */
  ghost predicate Drawn(canvas: Canvas, swarm: seq<Particle>, ps: seq<Pair>, shapes: seq<Shape>, lines: seq<Shape>)
    reads canvas, swarm
  {
    (forall p :: p in ps ==> p.0 < |swarm| && p.1 < |swarm|)
    && (forall k :: 0 <= k < |swarm| ==> swarm[k].links == LinksFor(ps, |shapes|, k))
    && |ps| <= |lines| && canvas.shapes == shapes + lines[..|ps|]
  }

  /** The first `c` particles of `swarm` are in states `news`, the others in `olds`. */
  ghost predicate MovedFirst(swarm: seq<Particle>, news: seq<Body>, olds: seq<Body>, c: nat)
    reads swarm
  {
    c <= |swarm| == |news| == |olds|
    && forall k :: 0 <= k < |swarm| ==> swarm[k].State() == if k < c then news[k] else olds[k]
  }

  /** The first `i` particles of `swarm` have made their move and links:
      they are in states `news`, the others still in `olds`, the pairs `ps`
      are drawn, and the pairs from row `i` on complete them to `all`. */
  ghost predicate MovedUpTo(canvas: Canvas, swarm: seq<Particle>, f: Frame, news: seq<Body>, olds: seq<Body>,
                            shapes: seq<Shape>, lines: seq<Shape>, all: seq<Pair>, i: nat, ps: seq<Pair>)
    reads canvas, swarm
  {
    MovedFirst(swarm, news, olds, i)
    && Drawn(canvas, swarm, ps, shapes, lines)
    && ps + PairsFrom(news, olds, i, f.linkDistance, f.m) == all
  }

  /** Particle `i` of the swarm is linked to the later particles below `j`:
      the first `i + 1` particles have moved, the pairs `ps` are drawn, and
      the pairs still to visit complete them to `all`. */
  ghost predicate RowLinked(canvas: Canvas, swarm: seq<Particle>, f: Frame, news: seq<Body>, olds: seq<Body>,
                            shapes: seq<Shape>, lines: seq<Shape>, all: seq<Pair>, i: nat, j: nat, ps: seq<Pair>)
    reads canvas, swarm
  {
    i < j <= |swarm| && MovedFirst(swarm, news, olds, i + 1)
    && Drawn(canvas, swarm, ps, shapes, lines)
    && ps + Rest(news, olds, i, j, f.linkDistance, f.m) == all
  }

  /** The particles of `sw` are in `states` and hold the links that the pairs
      `ps` hand out from handle `first` on. */
  ghost predicate SwarmIs(sw: seq<Particle>, states: seq<Body>, ps: seq<Pair>, first: nat)
    reads set p | p in sw
  {
    |states| == |sw|
    && forall k :: 0 <= k < |sw| ==> sw[k].State() == states[k] && sw[k].links == LinksFor(ps, first, k)
  }
}
