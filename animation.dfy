/**
  The animation that owns the particles.

  A `ParticleAnimation` keeps the tunable parameters and the swarms:
  `swarmDensity` swarms, each of max(1, particleDensity / swarmDensity)
  particles. Changing either density tears every particle and link off the
  canvas and builds the swarms anew; the other three parameters are only
  stored and read by the next frame.
 */
module Animation {
  import opened Motion
  import opened Palette
  import opened Drawing
  import opened Links
  import opened Particles

  /** Particles per swarm: max(1, particleDensity // swarmDensity). */
  function PerSwarm(particleDensity: int, swarmDensity: int): (n: nat)
    requires swarmDensity >= 1
    ensures n >= 1
    ensures particleDensity >= swarmDensity ==> n * swarmDensity <= particleDensity < (n + 1) * swarmDensity
    ensures particleDensity < swarmDensity ==> n == 1
  {
    var q := particleDensity / swarmDensity;
    if q < 1 then 1 else q
  }

  /** The lists `ls` one after the other. */
  function Flatten<T>(ls: seq<seq<T>>): seq<T> {
    if ls == [] then [] else Flatten(ls[..|ls| - 1]) + ls[|ls| - 1]
  }

  /** The lists of lists `lss` one after the other. */
  function Flatten2(lss: seq<seq<seq<Handle>>>): seq<Handle> {
    if lss == [] then [] else Flatten2(lss[..|lss| - 1]) + Flatten(lss[|lss| - 1])
  }

  /** An element is in the joined lists exactly when it is in one of them. */
  lemma {:induction false} FlattenExactly<T>(ls: seq<seq<T>>, x: T)
    ensures x in Flatten(ls) <==> exists k :: 0 <= k < |ls| && x in ls[k]
    decreases |ls|
  {
    if ls != [] {
      var n := |ls| - 1;
      var init := ls[..n];
      assert Flatten(ls) == Flatten(init) + ls[n];
      FlattenExactly(init, x);
      if x in Flatten(ls) {
        if x in Flatten(init) {
          var k :| 0 <= k < |init| && x in init[k];
          assert ls[k] == init[k];
        } else {
          assert x in ls[n];
        }
      }
      if exists k :: 0 <= k < |ls| && x in ls[k] {
        var k :| 0 <= k < |ls| && x in ls[k];
        if k < n {
          assert init[k] == ls[k];
          assert x in Flatten(init);
        }
        assert x in Flatten(ls);
      }
    }
  }

  /** A handle is in the joined lists of lists exactly when one of the lists holds it. */
  lemma {:induction false} Flatten2Exactly(lss: seq<seq<seq<Handle>>>, h: Handle)
    ensures h in Flatten2(lss) <==> exists t, k :: 0 <= t < |lss| && 0 <= k < |lss[t]| && h in lss[t][k]
    decreases |lss|
  {
    if lss != [] {
      var n := |lss| - 1;
      var init := lss[..n];
      assert Flatten2(lss) == Flatten2(init) + Flatten(lss[n]);
      Flatten2Exactly(init, h);
      FlattenExactly(lss[n], h);
      if h in Flatten2(lss) {
        if h in Flatten2(init) {
          var t, k :| 0 <= t < |init| && 0 <= k < |init[t]| && h in init[t][k];
          assert lss[t] == init[t];
        } else {
          var k :| 0 <= k < |lss[n]| && h in lss[n][k];
          assert 0 <= n < |lss| && h in lss[n][k];
        }
      }
      if exists t, k :: 0 <= t < |lss| && 0 <= k < |lss[t]| && h in lss[t][k] {
        var t, k :| 0 <= t < |lss| && 0 <= k < |lss[t]| && h in lss[t][k];
        if t < n {
          assert init[t] == lss[t];
          assert h in Flatten2(init);
        } else {
          assert h in Flatten(lss[n]);
        }
        assert h in Flatten2(lss);
      }
    }
  }

  lemma FlattenSnoc<T>(ls: seq<seq<T>>, k: nat)
    requires k < |ls|
    ensures Flatten(ls[..k + 1]) == Flatten(ls[..k]) + ls[k]
  {
    assert ls[..k + 1][..k] == ls[..k];
  }

  lemma Flatten2Snoc(lss: seq<seq<seq<Handle>>>, s: nat)
    requires s < |lss|
    ensures Flatten2(lss[..s + 1]) == Flatten2(lss[..s]) + Flatten(lss[s])
  {
    assert lss[..s + 1][..s] == lss[..s];
  }

  // ---------------------------------------------------------------------------
  // Moving and linking one swarm

  /** The second phase of a frame for swarm `s`, whose particles start in
      states `olds` holding no link: each particle in turn moves, then is
      linked to every later particle of the swarm within the link distance. */
  method MoveSwarm(canvas: Canvas, swarm: seq<Particle>, s: nat, f: Frame, ghost olds: seq<Body>)
    requires DistinctIn(swarm) && SinBounded(f.m)
    requires forall k :: 0 <= k < |swarm| ==>
      swarm[k].width == f.width && swarm[k].height == f.height && swarm[k].color == SwarmColor(s)
    requires |olds| == |swarm|
    requires forall k :: 0 <= k < |swarm| ==> swarm[k].State() == olds[k] && swarm[k].links == []
    modifies canvas, swarm
    ensures forall k :: 0 <= k < |swarm| ==> swarm[k].State() == Advance(f, olds, s)[k]
    ensures forall k :: 0 <= k < |swarm| ==> swarm[k].links == LinksFor(SwarmPairs(f, olds, s), old(|canvas.shapes|), k)
    ensures canvas.shapes == old(canvas.shapes) + SwarmLines(f, olds, s)
    ensures canvas.deleted == old(canvas.deleted)
  {
    ghost var news := Advance(f, olds, s);
    var color := SwarmColor(s);
    SwarmColorIsHexColor(s);
    ghost var all := SwarmPairs(f, olds, s);
    ghost var lines := SwarmLines(f, olds, s);
    PairsInRange(news, olds, 0, f.linkDistance, f.m);
    ghost var shapes := canvas.shapes;
    assert shapes + lines[..0] == shapes;
    assert [] + all == all;
    ghost var ps := MoveEach(canvas, swarm, s, f, color, news, olds, shapes, all, lines);
    assert ps + [] == ps;
    assert lines[..|all|] == lines;
  }

  /** The loop of `MoveSwarm`: particle by particle, move it and link it to
      the later particles, from the states `olds` to the states `news`,
      drawing the `lines` of the pairs `all`. */
  method MoveEach(canvas: Canvas, swarm: seq<Particle>, s: nat, f: Frame, color: string,
                  ghost news: seq<Body>, ghost olds: seq<Body>, ghost shapes: seq<Shape>,
                  ghost all: seq<Pair>, ghost lines: seq<Shape>)
    returns (ghost ps: seq<Pair>)
    requires DistinctIn(swarm)
    requires forall k :: 0 <= k < |swarm| ==>
      swarm[k].width == f.width && swarm[k].height == f.height && swarm[k].color == color
    requires MovedUpTo(canvas, swarm, f, news, olds, shapes, lines, all, 0, [])
    requires news == Advance(f, olds, s)
    requires LinesAligned(lines, all, news, olds, color, f)
    modifies canvas, swarm
    ensures MovedUpTo(canvas, swarm, f, news, olds, shapes, lines, all, |swarm|, ps)
    ensures canvas.deleted == old(canvas.deleted)
  {
    ps := [];
    var n := |swarm|;
    var i := 0;
    while i < n
      invariant 0 <= i <= n
      invariant MovedUpTo(canvas, swarm, f, news, olds, shapes, lines, all, i, ps)
      invariant canvas.deleted == old(canvas.deleted)
    {
      ps := MoveAndLink(canvas, swarm, s, i, f, color, news, olds, shapes, all, lines, ps);
      i := i + 1;
    }
  }

  /** Moves particle `i` of swarm `s`, then links it to every later particle
      of the swarm within the link distance. */
  method MoveAndLink(canvas: Canvas, swarm: seq<Particle>, s: nat, i: nat, f: Frame, color: string,
                     ghost news: seq<Body>, ghost olds: seq<Body>, ghost shapes: seq<Shape>,
                     ghost all: seq<Pair>, ghost lines: seq<Shape>, ghost ps0: seq<Pair>)
    returns (ghost ps: seq<Pair>)
    requires DistinctIn(swarm) && i < |swarm|
    requires MovedUpTo(canvas, swarm, f, news, olds, shapes, lines, all, i, ps0)
    requires news == Advance(f, olds, s)
    requires swarm[i].width == f.width && swarm[i].height == f.height && swarm[i].color == color
    requires LinesAligned(lines, all, news, olds, color, f)
    modifies canvas, swarm
    ensures MovedUpTo(canvas, swarm, f, news, olds, shapes, lines, all, i + 1, ps)
    ensures canvas.deleted == old(canvas.deleted)
  {
    var particle := swarm[i];
    AdvanceAt(f, olds, s, i);
    assert f.drive == Drive(f.drive.mouseX, f.drive.mouseY, f.drive.sensitivity, f.drive.particleSpeed);
    label before:
    particle.Move(f.drive.mouseX, f.drive.mouseY, f.drive.sensitivity, f.drive.particleSpeed, f.jitter(s, i), f.m);
    assert MovedFirst(swarm, news, olds, i + 1) by {
      forall k | 0 <= k < |swarm| && k != i
        ensures swarm[k].State() == old@before(swarm[k].State())
      {
        assert swarm[k] != particle;
      }
    }
    assert Drawn(canvas, swarm, ps0, shapes, lines) by {
      forall k | 0 <= k < |swarm| && k != i
        ensures swarm[k].links == old@before(swarm[k].links)
      {
        assert swarm[k] != particle;
      }
    }
    assert PairsFrom(news, olds, i, f.linkDistance, f.m) == Rest(news, olds, i, i + 1, f.linkDistance, f.m);
    ps := LinkRow(canvas, swarm, color, i, f, news, olds, shapes, all, lines, ps0);
    RestOfRow(news, olds, i, f.linkDistance, f.m);
  }

  /** The inner loop of a frame: links the moved particle `i` to every
      later particle of the swarm within the link distance, in index order,
      after the pairs `ps0` of the earlier rows, `shapes` being the canvas
      before the swarm's lines. The loop's contracts state `RowLinked` as one
      fact (`== true`), so that it is carried whole from step to step. */
  method LinkRow(canvas: Canvas, swarm: seq<Particle>, color: string, i: nat, f: Frame,
                 ghost news: seq<Body>, ghost olds: seq<Body>, ghost shapes: seq<Shape>,
                 ghost all: seq<Pair>, ghost lines: seq<Shape>, ghost ps0: seq<Pair>)
    returns (ghost ps: seq<Pair>)
    requires RowLinked(canvas, swarm, f, news, olds, shapes, lines, all, i, i + 1, ps0) == true
    requires DistinctIn(swarm) && swarm[i].color == color
    requires LinesAligned(lines, all, news, olds, color, f) == true
    modifies canvas, swarm
    ensures RowLinked(canvas, swarm, f, news, olds, shapes, lines, all, i, |swarm|, ps) == true
    ensures canvas.deleted == old(canvas.deleted)
  {
    ps := ps0;
    var n := |swarm|;
    var j: nat := i + 1;
    while j < n
      invariant RowLinked(canvas, swarm, f, news, olds, shapes, lines, all, i, j, ps) == true
      invariant canvas.deleted == old(canvas.deleted)
    {
      ps := LinkIfNear(canvas, swarm, color, i, j, f, news, olds, shapes, all, lines, ps);
      j := j + 1;
    }
  }

  /** Compares the moved particle `i` with the unmoved particle `j` of a
      swarm of colour `color`; when they are within the link distance, draws the line between
      them, with the opacity of this distance and moment, and records its
      handle on both. */
  method LinkIfNear(canvas: Canvas, swarm: seq<Particle>, color: string, i: nat, j: nat, f: Frame,
                    ghost news: seq<Body>, ghost olds: seq<Body>, ghost shapes: seq<Shape>,
                    ghost all: seq<Pair>, ghost lines: seq<Shape>, ghost ps0: seq<Pair>)
    returns (ghost ps: seq<Pair>)
    requires RowLinked(canvas, swarm, f, news, olds, shapes, lines, all, i, j, ps0) == true
    requires DistinctIn(swarm) && j < |swarm| && swarm[i].color == color
    requires LinesAligned(lines, all, news, olds, color, f) == true
    modifies canvas, swarm[i], swarm[j]
    ensures ps == ps0 + (if Near(news[i], olds[j], f.linkDistance, f.m) then [(i, j)] else [])
    ensures RowLinked(canvas, swarm, f, news, olds, shapes, lines, all, i, j + 1, ps) == true
    ensures canvas.deleted == old(canvas.deleted)
  {
    RestStep(news, olds, i, j, f.linkDistance, f.m);
    AppendAssociative(ps0, if Near(news[i], olds[j], f.linkDistance, f.m) then [(i, j)] else [],
                      Rest(news, olds, i, j + 1, f.linkDistance, f.m));
    ps := ps0;
    var particle, other := swarm[i], swarm[j];
    assert particle.State() == news[i] && other.State() == olds[j];
    var dx := particle.x - other.x;
    var dy := particle.y - other.y;
    var distance := f.m.sqrt(dx * dx + dy * dy);
    DistanceOfGaps(news[i], olds[j], dx, dy, f.m);
    if distance < f.linkDistance {
      var opacity := LinkOpacity(distance, f.elapsed, f.m);
      var fill := ColorWithOpacity(particle.color, opacity);
      NextLine(lines, all, news, olds, color, f, i, j, ps0);
      ps := DrawLink(canvas, swarm, i, j, fill, shapes, lines, ps0);
    } else {
      assert ps0 + [] == ps0;
    }
  }

  /** Draws the line `fill` coloured between the moved particle `i` and the
      unmoved particle `j`, the next of the swarm's `lines`, and appends its
      handle to the links of both. */
  method DrawLink(canvas: Canvas, swarm: seq<Particle>, i: nat, j: nat, fill: string,
                  ghost shapes: seq<Shape>, ghost lines: seq<Shape>, ghost ps0: seq<Pair>)
    returns (ghost ps: seq<Pair>)
    requires DistinctIn(swarm) && i < j < |swarm|
    requires Drawn(canvas, swarm, ps0, shapes, lines)
    requires |ps0| < |lines| && lines[|ps0|] == Line(swarm[i].x, swarm[i].y, swarm[j].x, swarm[j].y, fill)
    modifies canvas, swarm[i], swarm[j]
    ensures ps == ps0 + [(i, j)]
    ensures Drawn(canvas, swarm, ps, shapes, lines)
    ensures canvas.deleted == old(canvas.deleted)
    ensures forall k :: 0 <= k < |swarm| ==> swarm[k].State() == old(swarm[k].State())
  {
    var particle, other := swarm[i], swarm[j];
    assert lines[..|ps0| + 1] == lines[..|ps0|] + [lines[|ps0|]];
    AppendAssociative(shapes, lines[..|ps0|], [lines[|ps0|]]);
    var link := canvas.CreateLine(particle.x, particle.y, other.x, other.y, fill);
    LinkPair(swarm, i, j, link, ps0, |shapes|);
    ps := ps0 + [(i, j)];
  }

  /** Records the line `link` of the pair (i, j) on both of its particles,
      the particles holding the links of the pairs `ps` so far. */
  method LinkPair(swarm: seq<Particle>, i: nat, j: nat, link: Handle, ghost ps: seq<Pair>, ghost base: nat)
    requires DistinctIn(swarm) && i < j < |swarm|
    requires link == base + |ps|
    requires forall k :: 0 <= k < |swarm| ==> swarm[k].links == LinksFor(ps, base, k)
    modifies swarm[i], swarm[j]
    ensures forall k :: 0 <= k < |swarm| ==> swarm[k].links == LinksFor(ps + [(i, j)], base, k)
    ensures forall k :: 0 <= k < |swarm| ==> swarm[k].State() == old(swarm[k].State())
  {
    var particle, other := swarm[i], swarm[j];
    particle.links := particle.links + [link];
    other.links := other.links + [link];
    forall k | 0 <= k < |swarm|
      ensures swarm[k].links == LinksFor(ps + [(i, j)], base, k)
    {
      LinksForSnoc(ps, (i, j), base, k);
      if k != i && k != j {
        assert swarm[k] != particle && swarm[k] != other;
      }
    }
  }

  /** Swarm `s` of `all` makes the move and links of frame `f`, its first link
      getting the next handle of the canvas, `first`. */
  method MoveSwarmAt(canvas: Canvas, all: seq<seq<Particle>>, s: nat, f: Frame, ghost olds: seq<seq<Body>>,
                     ghost moved: seq<seq<Body>>, ghost pairs: seq<seq<Pair>>, ghost lines: seq<seq<Shape>>, ghost first: nat)
    requires Distinct(all) && SinBounded(f.m) && s < |all|
    requires |olds| == |all| && |moved| == |all| && |pairs| == |all| && |lines| == |all|
    requires forall t, k :: 0 <= t < |all| && 0 <= k < |all[t]| ==>
      all[t][k].width == f.width && all[t][k].height == f.height && all[t][k].color == SwarmColor(t)
    requires SwarmIs(all[s], olds[s], [], 0) && |canvas.shapes| == first
    requires forall t {:trigger Advance(f, olds[t], t)} :: 0 <= t < |all| ==> moved[t] == Advance(f, olds[t], t)
    requires forall t {:trigger SwarmPairs(f, olds[t], t)} :: 0 <= t < |all| ==> pairs[t] == SwarmPairs(f, olds[t], t)
    requires forall t {:trigger SwarmLines(f, olds[t], t)} :: 0 <= t < |all| ==> lines[t] == SwarmLines(f, olds[t], t)
    modifies canvas, all[s]
    ensures canvas.shapes == old(canvas.shapes) + lines[s]
    ensures canvas.deleted == old(canvas.deleted)
    ensures SwarmIs(all[s], moved[s], pairs[s], first)
  {
    MoveSwarm(canvas, all[s], s, f, olds[s]);
    assert SwarmIs(all[s], Advance(f, olds[s], s), SwarmPairs(f, olds[s], s), first);
    assert lines[s] == SwarmLines(f, olds[s], s);
  }

  /** Swarm after swarm, every particle makes the frame's move and links, the
      frame's first link getting the next handle of the canvas. The ghost
      arguments name, swarm by swarm, the states reached, the pairs linked, the
      lines drawn and the handle of the first link. */
  method MoveSwarmsTo(canvas: Canvas, all: seq<seq<Particle>>, f: Frame, ghost olds: seq<seq<Body>>,
                      ghost moved: seq<seq<Body>>, ghost pairs: seq<seq<Pair>>, ghost lines: seq<seq<Shape>>, ghost firsts: seq<nat>)
    requires Distinct(all) && SinBounded(f.m)
    requires |olds| == |all| && |moved| == |all| && |pairs| == |all| && |lines| == |all| && |firsts| == |all|
    requires forall t, k :: 0 <= t < |all| && 0 <= k < |all[t]| ==>
      all[t][k].width == f.width && all[t][k].height == f.height && all[t][k].color == SwarmColor(t)
    requires forall t :: 0 <= t < |all| ==> SwarmIs(all[t], olds[t], [], 0)
    requires forall t {:trigger Advance(f, olds[t], t)} :: 0 <= t < |all| ==> moved[t] == Advance(f, olds[t], t)
    requires forall t {:trigger SwarmPairs(f, olds[t], t)} :: 0 <= t < |all| ==> pairs[t] == SwarmPairs(f, olds[t], t)
    requires forall t {:trigger SwarmLines(f, olds[t], t)} :: 0 <= t < |all| ==> lines[t] == SwarmLines(f, olds[t], t)
    requires forall t :: 0 <= t < |all| ==> firsts[t] == |canvas.shapes| + |Flatten(lines[..t])|
    modifies canvas, Members(all)
    ensures canvas.shapes == old(canvas.shapes) + Flatten(lines)
    ensures canvas.deleted == old(canvas.deleted)
    ensures forall t :: 0 <= t < |all| ==> SwarmIs(all[t], moved[t], pairs[t], firsts[t])
  {
    var s: nat := 0;
    while s < |all|
      invariant s <= |all|
      invariant canvas.deleted == old(canvas.deleted)
      invariant canvas.shapes == old(canvas.shapes) + Flatten(lines[..s])
      invariant forall t :: 0 <= t < s ==> SwarmIs(all[t], moved[t], pairs[t], firsts[t])
      invariant forall t :: s <= t < |all| ==> SwarmIs(all[t], olds[t], [], 0)
    {
      var next := s + 1;
      label before:
      MoveSwarmAt(canvas, all, s, f, olds, moved, pairs, lines, firsts[s]);
      assert forall t :: 0 <= t < |all| && t != s ==> (forall p :: p in all[t] ==> unchanged@before(p)) by {
        DisjointFrom(all, s);
      }
      FlattenSnoc(lines, s);
      AppendAssociative(old(canvas.shapes), Flatten(lines[..s]), lines[s]);
      s := next;
    }
    assert lines[..|all|] == lines;
  }

  /** The lines drawn swarm by swarm, joined, are the frame's lines. */
  lemma {:induction false} FlattenedLines(f: Frame, olds: seq<seq<Body>>, drawn: seq<seq<Shape>>, u: nat)
    requires SinBounded(f.m) && u <= |drawn| <= |olds|
    requires forall t {:trigger SwarmLines(f, olds[t], t)} :: 0 <= t < |drawn| ==> drawn[t] == SwarmLines(f, olds[t], t)
    ensures Flatten(drawn[..u]) == FrameLines(f, olds, u)
    decreases u
  {
    if u > 0 {
      var prev := u - 1;
      FlattenedLines(f, olds, drawn, prev);
      FlattenSnoc(drawn, prev);
      FrameStep(f, olds, prev, u);
      assert drawn[prev] == SwarmLines(f, olds[prev], prev);
    }
  }

  // ---------------------------------------------------------------------------
  // Deleting shapes: the links of the last frame, and whole swarms on reset

  /** Deletes the shapes `handles` from the canvas, in order. */
  method DeleteEach(canvas: Canvas, handles: seq<Handle>)
    modifies canvas
    ensures canvas.shapes == old(canvas.shapes)
    ensures canvas.deleted == old(canvas.deleted) + handles
  {
    var l := 0;
    while l < |handles|
      invariant 0 <= l <= |handles|
      invariant canvas.shapes == old(canvas.shapes)
      invariant canvas.deleted == old(canvas.deleted) + handles[..l]
    {
      assert handles[..l + 1] == handles[..l] + [handles[l]];
      AppendAssociative(old(canvas.deleted), handles[..l], [handles[l]]);
      canvas.Delete(handles[l]);
      l := l + 1;
    }
    assert handles[..|handles|] == handles;
  }

  /** Deletes each particle's oval and then its links, particle by particle. */
  method TeardownSwarm(canvas: Canvas, swarm: seq<Particle>)
    modifies canvas
    ensures canvas.shapes == old(canvas.shapes)
    ensures canvas.deleted == old(canvas.deleted) + Teardown(swarm)
  {
    var k := 0;
    while k < |swarm|
      invariant 0 <= k <= |swarm|
      invariant canvas.shapes == old(canvas.shapes)
      invariant canvas.deleted == old(canvas.deleted) + Teardown(swarm[..k])
    {
      var particle := swarm[k];
      canvas.Delete(particle.id);
      DeleteEach(canvas, particle.links);
      assert swarm[..k + 1][..k] == swarm[..k];
      AppendAssociative(old(canvas.deleted), Teardown(swarm[..k]), [particle.id] + particle.links);
      k := k + 1;
    }
    assert swarm[..|swarm|] == swarm;
  }

  /** Tears the swarms down one after the other. */
  method TeardownSwarms(canvas: Canvas, all: seq<seq<Particle>>)
    modifies canvas
    ensures canvas.shapes == old(canvas.shapes)
    ensures canvas.deleted == old(canvas.deleted) + AllTeardown(all)
  {
    var s := 0;
    while s < |all|
      invariant 0 <= s <= |all|
      invariant canvas.shapes == old(canvas.shapes)
      invariant canvas.deleted == old(canvas.deleted) + AllTeardown(all[..s])
    {
      TeardownSwarm(canvas, all[s]);
      assert all[..s + 1][..s] == all[..s];
      AppendAssociative(old(canvas.deleted), AllTeardown(all[..s]), Teardown(all[s]));
      s := s + 1;
    }
    assert all[..|all|] == all;
  }

  /** Deletes the links every particle of `swarm` holds, `held` being
      those lists, and empties each list. */
  method ClearSwarm(canvas: Canvas, swarm: seq<Particle>, ghost olds: seq<Body>, ghost held: seq<seq<Handle>>)
    requires DistinctIn(swarm)
    requires |olds| == |swarm| && |held| == |swarm|
    requires forall k :: 0 <= k < |swarm| ==> swarm[k].State() == olds[k] && swarm[k].links == held[k]
    modifies canvas, swarm
    ensures canvas.shapes == old(canvas.shapes)
    ensures canvas.deleted == old(canvas.deleted) + Flatten(held)
    ensures SwarmIs(swarm, olds, [], 0)
  {
    var k := 0;
    while k < |swarm|
      invariant 0 <= k <= |swarm|
      invariant canvas.shapes == old(canvas.shapes)
      invariant canvas.deleted == old(canvas.deleted) + Flatten(held[..k])
      invariant forall j :: 0 <= j < |swarm| ==> swarm[j].State() == olds[j]
      invariant forall j :: 0 <= j < k ==> swarm[j].links == []
      invariant forall j :: k <= j < |swarm| ==> swarm[j].links == held[j]
    {
      var particle := swarm[k];
      DeleteEach(canvas, particle.links);
      FlattenSnoc(held, k);
      particle.links := [];
      k := k + 1;
    }
    assert held[..|swarm|] == held;
  }

  /** Deletes the links every particle of the swarms `all` holds, `held`
      being those lists swarm by swarm, and empties each list. */
  method ClearSwarms(canvas: Canvas, all: seq<seq<Particle>>, ghost olds: seq<seq<Body>>, ghost held: seq<seq<seq<Handle>>>)
    requires Distinct(all)
    requires |olds| == |all| && |held| == |all|
    requires forall t :: 0 <= t < |all| ==> |olds[t]| == |all[t]| && |held[t]| == |all[t]|
    requires forall t, k :: 0 <= t < |all| && 0 <= k < |all[t]| ==>
      all[t][k].State() == olds[t][k] && all[t][k].links == held[t][k]
    modifies canvas, Members(all)
    ensures canvas.shapes == old(canvas.shapes)
    ensures canvas.deleted == old(canvas.deleted) + Flatten2(held)
    ensures forall t :: 0 <= t < |all| ==> SwarmIs(all[t], olds[t], [], 0)
  {
    var s := 0;
    while s < |all|
      invariant 0 <= s <= |all|
      invariant canvas.shapes == old(canvas.shapes)
      invariant canvas.deleted == old(canvas.deleted) + Flatten2(held[..s])
      invariant forall t :: 0 <= t < s ==> SwarmIs(all[t], olds[t], [], 0)
      invariant forall t :: s <= t < |all| ==> unchanged(all[t])
    {
      var next := s + 1;
      label before:
      ClearSwarm(canvas, all[s], olds[s], held[s]);
      assert forall t :: 0 <= t < |all| && t != s ==> (forall p :: p in all[t] ==> unchanged@before(p)) by {
        DisjointFrom(all, s);
      }
      Flatten2Snoc(held, s);
      AppendAssociative(old(canvas.deleted), Flatten2(held[..s]), Flatten(held[s]));
      s := next;
    }
    assert held[..|all|] == held;
  }

  // ---------------------------------------------------------------------------
  // Moving and linking all the swarms

  /** Swarm by swarm, the states frame `f` moves the particles to. */
  ghost function AllAdvanced(f: Frame, olds: seq<seq<Body>>): (r: seq<seq<Body>>)
    ensures |r| == |olds|
    ensures forall t {:trigger Advance(f, olds[t], t)} :: 0 <= t < |olds| ==> r[t] == Advance(f, olds[t], t)
  {
    seq(|olds|, t requires 0 <= t < |olds| => Advance(f, olds[t], t))
  }

  /** Swarm by swarm, the pairs frame `f` links. */
  ghost function AllPairs(f: Frame, olds: seq<seq<Body>>): (r: seq<seq<Pair>>)
    ensures |r| == |olds|
    ensures forall t {:trigger SwarmPairs(f, olds[t], t)} :: 0 <= t < |olds| ==> r[t] == SwarmPairs(f, olds[t], t)
  {
    seq(|olds|, t requires 0 <= t < |olds| => SwarmPairs(f, olds[t], t))
  }

  /** Swarm by swarm, the lines frame `f` draws. */
  ghost function AllLines(f: Frame, olds: seq<seq<Body>>): (r: seq<seq<Shape>>)
    requires SinBounded(f.m)
    ensures |r| == |olds|
    ensures forall t {:trigger SwarmLines(f, olds[t], t)} :: 0 <= t < |olds| ==> r[t] == SwarmLines(f, olds[t], t)
  {
    seq(|olds|, t requires 0 <= t < |olds| => SwarmLines(f, olds[t], t))
  }

  /** Swarm by swarm, the handle of the first link, the frame's first getting `base`. */
  ghost function AllBases(f: Frame, olds: seq<seq<Body>>, base: nat): (r: seq<nat>)
    ensures |r| == |olds|
    ensures forall t {:trigger SwarmBase(f, olds, t, base)} :: 0 <= t < |olds| ==> r[t] == SwarmBase(f, olds, t, base)
  {
    seq(|olds|, t requires 0 <= t < |olds| => SwarmBase(f, olds, t, base))
  }

  /** Joined, the lines of the swarms are the frame's lines, and those of the
      swarms below `t` number the links before swarm `t`. */
  lemma LinesBefore(f: Frame, olds: seq<seq<Body>>, lines: seq<seq<Shape>>, base: nat)
    requires SinBounded(f.m) && |lines| == |olds|
    requires forall t {:trigger SwarmLines(f, olds[t], t)} :: 0 <= t < |lines| ==> lines[t] == SwarmLines(f, olds[t], t)
    ensures Flatten(lines) == FrameLines(f, olds, |olds|)
    ensures forall t :: 0 <= t < |olds| ==> base + |Flatten(lines[..t])| == SwarmBase(f, olds, t, base)
  {
    forall t | 0 <= t < |olds|
      ensures base + |Flatten(lines[..t])| == SwarmBase(f, olds, t, base)
    {
      FlattenedLines(f, olds, lines, t);
    }
    FlattenedLines(f, olds, lines, |olds|);
    assert lines[..|olds|] == lines;
  }

  /** Swarm after swarm, every particle makes the move of frame `f` and links
      to the particles of its swarm within reach, the frame's first link
      getting the next handle of the canvas; every particle stays on it. */
  method MoveSwarms(canvas: Canvas, all: seq<seq<Particle>>, f: Frame, ghost olds: seq<seq<Body>>)
    requires Distinct(all) && SinBounded(f.m) && 0 <= f.width && 0 <= f.height
    requires |olds| == |all|
    requires forall t, k :: 0 <= t < |all| && 0 <= k < |all[t]| ==>
      all[t][k].width == f.width && all[t][k].height == f.height && all[t][k].color == SwarmColor(t)
    requires forall t :: 0 <= t < |all| ==> SwarmIs(all[t], olds[t], [], 0)
    modifies canvas, Members(all)
    ensures canvas.shapes == old(canvas.shapes) + FrameLines(f, olds, |all|)
    ensures canvas.deleted == old(canvas.deleted)
    ensures forall t :: 0 <= t < |all| ==>
      SwarmIs(all[t], Advance(f, olds[t], t), SwarmPairs(f, olds[t], t), SwarmBase(f, olds, t, old(|canvas.shapes|)))
    ensures forall t, k :: 0 <= t < |all| && 0 <= k < |all[t]| ==> InBounds(all[t][k].State(), f.width, f.height)
  {
    ghost var base := |canvas.shapes|;
    ghost var lines := AllLines(f, olds);
    LinesBefore(f, olds, lines, base);
    AdvanceStaysInBounds(f, olds);
    MoveSwarmsTo(canvas, all, f, olds, AllAdvanced(f, olds), AllPairs(f, olds), lines, AllBases(f, olds, base));
  }

  class ParticleAnimation {
    const width: int
    const height: int
    var mouseX: int
    var mouseY: int
    var cursorSensitivity: real
    var particleDensity: int
    var swarmDensity: int
    var linkDistance: real
    var particleSpeed: real
    const canvas: Canvas
    var swarms: seq<seq<Particle>>

    ghost function Particles(): set<Particle>
      reads this
    {
      Members(swarms)
    }

    /** Particle `p` was made for swarm `s` of this animation. */
    ghost predicate Belongs(p: Particle, s: nat)
      reads this
    {
      p.swarmId == s && p.color == SwarmColor(s) && p.width == width && p.height == height
    }

    /** The shape of the swarms, which no frame changes: `swarmDensity`
        swarms of `PerSwarm` particles each, no particle twice, each made for
        its swarm. */
    ghost predicate Shaped()
      reads this
    {
      && 0 <= width && 0 <= height
      && 1 <= swarmDensity
      && |swarms| == swarmDensity
      && (forall s :: 0 <= s < |swarms| ==> |swarms[s]| == PerSwarm(particleDensity, swarmDensity))
      && Distinct(swarms)
      && (forall s, k :: 0 <= s < |swarms| && 0 <= k < |swarms[s]| ==> Belongs(swarms[s][k], s))
    }

    /** The swarms are well shaped and every particle is on the canvas. */
    ghost predicate Valid()
      reads this, Particles()
    {
      && Shaped()
      && forall s, k :: 0 <= s < |swarms| && 0 <= k < |swarms[s]| ==> InBounds(swarms[s][k].State(), width, height)
    }

    /** Particle `p` is the `k`th of swarm `s`, started from `spawn(s, k)`,
        holding no link, with its oval at handle `first + k` of `shapes`. */
    ghost predicate Spawned(p: Particle, s: nat, k: nat, spawn: (nat, nat) -> Spawn, first: nat, shapes: seq<Shape>)
      reads this, p
    {
      && Belongs(p, s)
      && InBounds(p.State(), width, height)
      && p.links == []
      && p.State() == Launch(spawn(s, k))
      && p.id == first + k
      && p.id < |shapes|
      && shapes[p.id] == OvalAt(p.x, p.y, SwarmColor(s))
    }

    /** Every particle of `built` is the one `Spawned` describes, swarm `t`
        having its ovals from handle `base + t * perSwarm` on. */
    ghost predicate Built(built: seq<seq<Particle>>, spawn: (nat, nat) -> Spawn, base: nat, perSwarm: nat, shapes: seq<Shape>)
      reads this, Members(built)
    {
      forall t, k :: 0 <= t < |built| && 0 <= k < |built[t]| ==>
        Spawned(built[t][k], t, k, spawn, base + t * perSwarm, shapes)
    }

    /** The swarms are freshly built from `spawn`, their ovals created from
        handle `base` on, swarm after swarm, and no particle holds a link. */
    ghost predicate Launched(spawn: (nat, nat) -> Spawn, base: nat)
      reads this, Particles(), canvas
    {
      && Valid()
      && |canvas.shapes| == base + |swarms| * PerSwarm(particleDensity, swarmDensity)
      && Built(swarms, spawn, base, PerSwarm(particleDensity, swarmDensity), canvas.shapes)
    }

    /** Creating more shapes leaves the ovals of built particles in place. */
    lemma BuiltKept(built: seq<seq<Particle>>, spawn: (nat, nat) -> Spawn, base: nat, perSwarm: nat, shapes: seq<Shape>, shapes': seq<Shape>)
      requires Built(built, spawn, base, perSwarm, shapes)
      requires |shapes| <= |shapes'| && shapes'[..|shapes|] == shapes
      ensures Built(built, spawn, base, perSwarm, shapes')
    {
      forall t, k | 0 <= t < |built| && 0 <= k < |built[t]|
        ensures Spawned(built[t][k], t, k, spawn, base + t * perSwarm, shapes')
      {
        var id := built[t][k].id;
        assert shapes'[id] == shapes'[..|shapes|][id];
      }
    }

    lemma BuiltAppend(built: seq<seq<Particle>>, swarm: seq<Particle>, spawn: (nat, nat) -> Spawn, base: nat, perSwarm: nat, shapes: seq<Shape>)
      requires Built(built, spawn, base, perSwarm, shapes)
      requires forall k :: 0 <= k < |swarm| ==> Spawned(swarm[k], |built|, k, spawn, base + |built| * perSwarm, shapes)
      ensures Built(built + [swarm], spawn, base, perSwarm, shapes)
    {
      var b := built + [swarm];
      forall t, k | 0 <= t < |b| && 0 <= k < |b[t]|
        ensures Spawned(b[t][k], t, k, spawn, base + t * perSwarm, shapes)
      {
        if t < |built| {
          assert b[t] == built[t];
        }
      }
    }

    static lemma DistinctAppend(built: seq<seq<Particle>>, swarm: seq<Particle>)
      requires Distinct(built) && DistinctIn(swarm)
      requires forall j :: 0 <= j < |swarm| ==> swarm[j].swarmId == |built|
      ensures Distinct(built + [swarm])
    {
      var b := built + [swarm];
      forall t | 0 <= t < |b| ensures DistinctIn(b[t]) {
        if t < |built| { assert b[t] == built[t]; }
      }
    }

    /** An animation on a fresh `width` x `height` canvas with the default
        parameters and its swarms built from `spawn`. */
    constructor (width: int, height: int, spawn: (nat, nat) -> Spawn)
      requires 0 <= width && 0 <= height
      requires forall s, k :: OnCanvas(spawn(s, k), width, height)
      ensures this.width == width && this.height == height
      ensures mouseX == width / 2 && mouseY == height / 2
      ensures cursorSensitivity == 0.8 && particleDensity == 50 && swarmDensity == 3
      ensures linkDistance == 150.0 && particleSpeed == 1.0
      ensures fresh(canvas) && canvas.deleted == []
      ensures Launched(spawn, 0)
      ensures forall s, k :: 0 <= s < |swarms| && 0 <= k < |swarms[s]| ==> fresh(swarms[s][k])
    {
      this.width := width;
      this.height := height;
      mouseX := width / 2;
      mouseY := height / 2;
      cursorSensitivity := 0.8;
      particleDensity := 50;
      swarmDensity := 3;
      linkDistance := 150.0;
      particleSpeed := 1.0;
      canvas := new Canvas();
      swarms := [];
      new;
      CreateSwarms(spawn);
    }

    /** `swarmDensity` swarms of max(1, particleDensity // swarmDensity)
        particles each; particle k of swarm s starts from `spawn(s, k)`. */
    method CreateSwarms(spawn: (nat, nat) -> Spawn)
      requires 0 <= width && 0 <= height && 1 <= swarmDensity
      requires forall s, k :: OnCanvas(spawn(s, k), width, height)
      modifies this`swarms, canvas
      ensures Launched(spawn, old(|canvas.shapes|))
      ensures forall s, k :: 0 <= s < |swarms| && 0 <= k < |swarms[s]| ==> fresh(swarms[s][k])
      ensures canvas.shapes[..old(|canvas.shapes|)] == old(canvas.shapes)
      ensures canvas.deleted == old(canvas.deleted)
    {
      var perSwarm := PerSwarm(particleDensity, swarmDensity);
      var built := BuildSwarms(perSwarm, spawn);
      swarms := built;
    }

    /** `swarmDensity` swarms of `perSwarm` particles each, built swarm after
        swarm, their ovals created from the next handle of the canvas on. */
    method BuildSwarms(perSwarm: nat, spawn: (nat, nat) -> Spawn) returns (built: seq<seq<Particle>>)
      requires 0 <= width && 0 <= height && 1 <= swarmDensity
      requires forall s, k :: OnCanvas(spawn(s, k), width, height)
      modifies canvas
      ensures |built| == swarmDensity && forall t :: 0 <= t < |built| ==> |built[t]| == perSwarm
      ensures forall t, k :: 0 <= t < |built| && 0 <= k < |built[t]| ==> fresh(built[t][k])
      ensures Distinct(built)
      ensures |canvas.shapes| == old(|canvas.shapes|) + swarmDensity * perSwarm
      ensures canvas.shapes[..old(|canvas.shapes|)] == old(canvas.shapes)
      ensures canvas.deleted == old(canvas.deleted)
      ensures Built(built, spawn, old(|canvas.shapes|), perSwarm, canvas.shapes)
    {
      ghost var base := |canvas.shapes|;
      built := [];
      var s := 0;
      while s < swarmDensity
        invariant 0 <= s <= swarmDensity && |built| == s
        invariant forall t :: 0 <= t < s ==> |built[t]| == perSwarm
        invariant forall t, k :: 0 <= t < s && 0 <= k < |built[t]| ==> fresh(built[t][k])
        invariant Distinct(built)
        invariant |canvas.shapes| == base + s * perSwarm
        invariant canvas.shapes[..base] == old(canvas.shapes)
        invariant canvas.deleted == old(canvas.deleted)
        invariant Built(built, spawn, base, perSwarm, canvas.shapes)
      {
        ghost var before := canvas.shapes;
        var swarm := SpawnSwarm(s, perSwarm, spawn);
        BuiltKept(built, spawn, base, perSwarm, before, canvas.shapes);
        BuiltAppend(built, swarm, spawn, base, perSwarm, canvas.shapes);
        DistinctAppend(built, swarm);
        assert canvas.shapes[..base] == canvas.shapes[..|before|][..base];
        assert (s + 1) * perSwarm == s * perSwarm + perSwarm;
        built := built + [swarm];
        s := s + 1;
      }
    }

    /** The `perSwarm` particles of swarm `s`, their ovals created in order. */
    method SpawnSwarm(s: nat, perSwarm: nat, spawn: (nat, nat) -> Spawn) returns (swarm: seq<Particle>)
      requires 0 <= width && 0 <= height
      requires forall s, k :: OnCanvas(spawn(s, k), width, height)
      modifies canvas
      ensures |swarm| == perSwarm && DistinctIn(swarm)
      ensures forall k :: 0 <= k < perSwarm ==> fresh(swarm[k]) && Spawned(swarm[k], s, k, spawn, old(|canvas.shapes|), canvas.shapes)
      ensures |canvas.shapes| == old(|canvas.shapes|) + perSwarm
      ensures canvas.shapes[..old(|canvas.shapes|)] == old(canvas.shapes)
      ensures canvas.deleted == old(canvas.deleted)
    {
      ghost var first := |canvas.shapes|;
      swarm := [];
      var k := 0;
      while k < perSwarm
        invariant 0 <= k <= perSwarm && |swarm| == k
        invariant DistinctIn(swarm)
        invariant |canvas.shapes| == first + k
        invariant canvas.shapes[..first] == old(canvas.shapes)
        invariant canvas.deleted == old(canvas.deleted)
        invariant forall j :: 0 <= j < k ==> fresh(swarm[j]) && Spawned(swarm[j], s, j, spawn, first, canvas.shapes)
      {
        var particle := new Particle(canvas, width, height, s, spawn(s, k));
        swarm := swarm + [particle];
        k := k + 1;
      }
    }

    /** Deletes every particle's oval and then its links from the canvas, swarm
        by swarm, and builds the swarms anew from `spawn`. */
    method ResetSwarms(spawn: (nat, nat) -> Spawn)
      requires 0 <= width && 0 <= height && 1 <= swarmDensity
      requires forall s, k :: OnCanvas(spawn(s, k), width, height)
      modifies this`swarms, canvas
      ensures canvas.deleted == old(canvas.deleted) + old(AllTeardown(swarms))
      ensures Launched(spawn, old(|canvas.shapes|))
      ensures forall s, k :: 0 <= s < |swarms| && 0 <= k < |swarms[s]| ==> fresh(swarms[s][k])
      ensures canvas.shapes[..old(|canvas.shapes|)] == old(canvas.shapes)
    {
      TeardownSwarms(canvas, swarms);
      CreateSwarms(spawn);
    }

    /** The particle-density slider: store the new density and rebuild. */
    method UpdateParticleCount(newDensity: int, spawn: (nat, nat) -> Spawn)
      requires 0 <= width && 0 <= height && 1 <= swarmDensity
      requires forall s, k :: OnCanvas(spawn(s, k), width, height)
      modifies this`particleDensity, this`swarms, canvas
      ensures particleDensity == newDensity
      ensures canvas.deleted == old(canvas.deleted) + old(AllTeardown(swarms))
      ensures Launched(spawn, old(|canvas.shapes|))
      ensures forall s, k :: 0 <= s < |swarms| && 0 <= k < |swarms[s]| ==> fresh(swarms[s][k])
      ensures canvas.shapes[..old(|canvas.shapes|)] == old(canvas.shapes)
    {
      particleDensity := newDensity;
      ResetSwarms(spawn);
    }

    /** The swarm-density slider: store the new number of swarms and rebuild.
        A density of 0 would divide by zero when the swarms are rebuilt. */
    method UpdateSwarmCount(newDensity: int, spawn: (nat, nat) -> Spawn)
      requires 0 <= width && 0 <= height && 1 <= newDensity
      requires forall s, k :: OnCanvas(spawn(s, k), width, height)
      modifies this`swarmDensity, this`swarms, canvas
      ensures swarmDensity == newDensity
      ensures canvas.deleted == old(canvas.deleted) + old(AllTeardown(swarms))
      ensures Launched(spawn, old(|canvas.shapes|))
      ensures forall s, k :: 0 <= s < |swarms| && 0 <= k < |swarms[s]| ==> fresh(swarms[s][k])
      ensures canvas.shapes[..old(|canvas.shapes|)] == old(canvas.shapes)
    {
      swarmDensity := newDensity;
      ResetSwarms(spawn);
    }

    /** The sensitivity slider stores its value; the next frame reads it. */
    method SetCursorSensitivity(value: real)
      modifies this`cursorSensitivity
      ensures cursorSensitivity == value
      ensures old(Valid()) ==> Valid()
    {
      cursorSensitivity := value;
    }

    /** The link-distance slider stores its value; the next frame reads it. */
    method SetLinkDistance(value: real)
      modifies this`linkDistance
      ensures linkDistance == value
      ensures old(Valid()) ==> Valid()
    {
      linkDistance := value;
    }

    /** The speed slider stores its value; the next frame reads it. */
    method SetParticleSpeed(value: real)
      modifies this`particleSpeed
      ensures particleSpeed == value
      ensures old(Valid()) ==> Valid()
    {
      particleSpeed := value;
    }

    /** A pointer motion event at (x, y). */
    method OnMouseMove(x: int, y: int)
      modifies this`mouseX, this`mouseY
      ensures mouseX == x && mouseY == y
      ensures old(Valid()) ==> Valid()
    {
      mouseX := x;
      mouseY := y;
    }

    /** The first phase of a frame: every link drawn by the last frame is
        deleted, `held` being each particle's list of links, swarm by swarm,
        and every list emptied. */
    method ClearLinks(ghost olds: seq<seq<Body>>, ghost held: seq<seq<seq<Handle>>>)
      requires Shaped()
      requires |olds| == |swarms| && |held| == |swarms|
      requires forall t :: 0 <= t < |swarms| ==> |olds[t]| == |swarms[t]| && |held[t]| == |swarms[t]|
      requires forall t, k :: 0 <= t < |swarms| && 0 <= k < |swarms[t]| ==>
        swarms[t][k].State() == olds[t][k] && swarms[t][k].links == held[t][k]
      modifies canvas, Particles()
      ensures canvas.shapes == old(canvas.shapes)
      ensures canvas.deleted == old(canvas.deleted) + Flatten2(held)
      ensures forall t :: 0 <= t < |swarms| ==> SwarmIs(swarms[t], olds[t], [], 0)
    {
      ClearSwarms(canvas, swarms, olds, held);
    }

    /** One frame: the links of the last frame are deleted, then swarm after
        swarm every particle moves and links to each later particle of its
        swarm that it is near. `jitter(s, k)` is the random turn of particle
        `k` of swarm `s`, `elapsed` the seconds since start; `olds` and `held`
        name the particles' states and links on entry. The frame `f` reads the
        current pointer, sensitivity, speed and link distance. */
    method Animate(jitter: (nat, nat) -> real, elapsed: real, m: Math,
                   ghost olds: seq<seq<Body>>, ghost held: seq<seq<seq<Handle>>>) returns (ghost f: Frame)
      requires Valid() && SinBounded(m)
      requires |olds| == |swarms| && |held| == |swarms|
      requires forall t :: 0 <= t < |swarms| ==> |olds[t]| == |swarms[t]| && |held[t]| == |swarms[t]|
      requires forall t, k :: 0 <= t < |swarms| && 0 <= k < |swarms[t]| ==>
        swarms[t][k].State() == olds[t][k] && swarms[t][k].links == held[t][k]
      modifies canvas, Particles()
      ensures Valid()
      ensures canvas.deleted == old(canvas.deleted) + Flatten2(held)
      ensures f == Frame(width, height, Drive(mouseX, mouseY, cursorSensitivity, particleSpeed), linkDistance, elapsed, jitter, m)
      ensures canvas.shapes == old(canvas.shapes) + FrameLines(f, olds, |swarms|)
      ensures forall t :: 0 <= t < |swarms| ==>
        SwarmIs(swarms[t], Advance(f, olds[t], t), SwarmPairs(f, olds[t], t), SwarmBase(f, olds, t, old(|canvas.shapes|)))
    {
      var frame := Frame(width, height, Drive(mouseX, mouseY, cursorSensitivity, particleSpeed), linkDistance, elapsed, jitter, m);
      f := frame;
      ClearLinks(olds, held);
      MoveAll(frame, olds);
    }

    /** The second phase of a frame: swarm after swarm, every particle, holding
        no link, makes the move of frame `f` and links to the particles of its
        swarm within reach. */
    method MoveAll(f: Frame, ghost olds: seq<seq<Body>>)
      requires Shaped() && SinBounded(f.m) && f.width == width && f.height == height
      requires |olds| == |swarms|
      requires forall t :: 0 <= t < |swarms| ==> SwarmIs(swarms[t], olds[t], [], 0)
      modifies canvas, Particles()
      ensures Valid()
      ensures canvas.deleted == old(canvas.deleted)
      ensures canvas.shapes == old(canvas.shapes) + FrameLines(f, olds, |swarms|)
      ensures forall t :: 0 <= t < |swarms| ==>
        SwarmIs(swarms[t], Advance(f, olds[t], t), SwarmPairs(f, olds[t], t), SwarmBase(f, olds, t, old(|canvas.shapes|)))
    {
      MoveSwarms(canvas, swarms, f, olds);
      assert unchanged(this);
    }
  }

  /** Lists that are all empty join to nothing. */
  lemma {:induction false} Flatten2OfEmpty(lss: seq<seq<seq<Handle>>>)
    requires forall t, k :: 0 <= t < |lss| && 0 <= k < |lss[t]| ==> lss[t][k] == []
    ensures Flatten2(lss) == []
    decreases |lss|
  {
    if lss != [] {
      var init := lss[..|lss| - 1];
      Flatten2OfEmpty(init);
      FlattenOfEmpty(lss[|lss| - 1]);
    }
  }

  lemma {:induction false} FlattenOfEmpty(ls: seq<seq<Handle>>)
    requires forall k :: 0 <= k < |ls| ==> ls[k] == []
    ensures Flatten(ls) == []
    decreases |ls|
  {
    if ls != [] {
      FlattenOfEmpty(ls[..|ls| - 1]);
    }
  }

  /** The start states of the default 3 swarms of 16 particles. */
  function StartStates(spawn: (nat, nat) -> Spawn): seq<seq<Body>> {
    seq(3, (t: nat) => seq(16, (k: nat) => Launch(spawn(t, k))))
  }

  /** The empty link lists of the default 3 swarms of 16 particles. */
  function NoLinks(): seq<seq<seq<Handle>>> {
    seq(3, (t: nat) => seq(16, (k: nat) => []))
  }

  /** Just after creation, with the default densities, particle `k` of swarm
      `t` is in its start state, holds no link, and has oval `16 * t + k`. */
  lemma LaunchedStart(a: ParticleAnimation, spawn: (nat, nat) -> Spawn, olds: seq<seq<Body>>, held: seq<seq<seq<Handle>>>)
    requires a.Launched(spawn, 0) && a.particleDensity == 50 && a.swarmDensity == 3
    requires olds == StartStates(spawn) && held == NoLinks()
    ensures |a.swarms| == 3 && forall t :: 0 <= t < 3 ==> |a.swarms[t]| == 16
    ensures forall t, k :: 0 <= t < 3 && 0 <= k < 16 ==>
      a.swarms[t][k].State() == olds[t][k] && a.swarms[t][k].links == held[t][k]
    ensures |a.canvas.shapes| == 48
    ensures forall t, k :: 0 <= t < 3 && 0 <= k < 16 ==>
      a.canvas.shapes[16 * t + k] == OvalAt(spawn(t, k).x as real, spawn(t, k).y as real, SwarmColor(t))
  {
    assert PerSwarm(50, 3) == 16;
    forall t, k | 0 <= t < 3 && 0 <= k < 16
      ensures a.swarms[t][k].State() == olds[t][k] && a.swarms[t][k].links == held[t][k]
      ensures a.canvas.shapes[16 * t + k] == OvalAt(spawn(t, k).x as real, spawn(t, k).y as real, SwarmColor(t))
    {
      assert a.Spawned(a.swarms[t][k], t, k, spawn, t * 16, a.canvas.shapes);
    }
  }

  /** An animation is created on a fresh canvas with the default parameters,
      and runs its first frame straight away. `olds` are the particles' start
      states, swarm by swarm, and `ovals` the 48 ovals drawn for them. */
  method Open(width: int, height: int, spawn: (nat, nat) -> Spawn, jitter: (nat, nat) -> real, elapsed: real, m: Math)
    returns (a: ParticleAnimation, ghost f: Frame, ghost olds: seq<seq<Body>>, ghost ovals: seq<Shape>)
    requires 0 <= width && 0 <= height && SinBounded(m)
    requires forall s, k :: OnCanvas(spawn(s, k), width, height)
    ensures fresh(a) && fresh(a.canvas) && a.Valid()
    ensures |a.swarms| == 3 && forall t :: 0 <= t < 3 ==> |a.swarms[t]| == 16
    ensures f == Frame(width, height, Drive(width / 2, height / 2, 0.8, 1.0), 150.0, elapsed, jitter, m)
    ensures |olds| == 3 && forall t :: 0 <= t < 3 ==> |olds[t]| == 16
    ensures forall t, k :: 0 <= t < 3 && 0 <= k < 16 ==> olds[t][k] == Launch(spawn(t, k))
    ensures |ovals| == 48
    ensures forall t, k :: 0 <= t < 3 && 0 <= k < 16 ==>
      ovals[16 * t + k] == OvalAt(spawn(t, k).x as real, spawn(t, k).y as real, SwarmColor(t))
    ensures a.canvas.shapes == ovals + FrameLines(f, olds, 3)
    ensures a.canvas.deleted == []
    ensures forall t :: 0 <= t < 3 ==>
      SwarmIs(a.swarms[t], Advance(f, olds[t], t), SwarmPairs(f, olds[t], t), SwarmBase(f, olds, t, 48))
  {
    a := new ParticleAnimation(width, height, spawn);
    olds := StartStates(spawn);
    ghost var held := NoLinks();
    ovals := a.canvas.shapes;
    LaunchedStart(a, spawn, olds, held);
    Flatten2OfEmpty(held);
    f := a.Animate(jitter, elapsed, m, olds, held);
  }
}
