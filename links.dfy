/**
  What one animation frame draws, as pure functions of the particles' states
  at the start of the frame.

  Within a swarm the particles are visited in index order; particle i moves
  and is then compared with every later particle j of the same swarm, which
  has not moved yet this frame. So the pair (i, j) is tested with i's new
  state and j's old state. Each pair under the link distance gets one fresh
  handle, recorded on both endpoints.
 */
module Links {
  import opened Motion
  import opened Palette
  import opened Drawing

  /** Indices (i, j) of two particles of one swarm, i < j. */
  type Pair = (nat, nat)

  /** The parameters of one frame: canvas size, move arguments, link
      threshold, elapsed seconds, the heading jitter drawn for particle k of
      swarm s, and the library functions. */
  datatype Frame = Frame(
    width: int, height: int,
    drive: Drive,
    linkDistance: real,
    elapsed: real,
    jitter: (nat, nat) -> real,
    m: Math)

  // ---------------------------------------------------------------------------
  // One swarm

  /** The squared distance between two bodies, dx*dx + dy*dy. */
  function SquaredDistance(a: Body, b: Body): real {
    var dx := a.x - b.x;
    var dy := a.y - b.y;
    dx * dx + dy * dy
  }

  function Distance(a: Body, b: Body, m: Math): real {
    m.sqrt(SquaredDistance(a, b))
  }

  predicate Near(a: Body, b: Body, linkDistance: real, m: Math) {
    Distance(a, b, m) < linkDistance
  }

  /** The states of swarm `s` after every particle has moved once. */
  function Advance(f: Frame, olds: seq<Body>, s: nat): (news: seq<Body>)
    ensures |news| == |olds|
  {
    if olds == [] then []
    else
      var k := |olds| - 1;
      Advance(f, olds[..k], s) + [Step(olds[k], f.width, f.height, f.drive, f.jitter(s, k), f.m)]
  }

  /** Particle `k` of the swarm makes one move, with its own heading jitter. */
  lemma {:induction false} AdvanceAt(f: Frame, olds: seq<Body>, s: nat, k: nat)
    requires k < |olds|
    ensures Advance(f, olds, s)[k] == Step(olds[k], f.width, f.height, f.drive, f.jitter(s, k), f.m)
  {
    var last := |olds| - 1;
    if k < last {
      AdvanceAt(f, olds[..last], s, k);
      assert olds[..last][k] == olds[k];
    }
  }

  /** The pairs (i, k) with `j` <= k whose moved i is near unmoved k, in visiting order. */
  function RowFrom(news: seq<Body>, olds: seq<Body>, i: nat, j: nat, linkDistance: real, m: Math): seq<Pair>
    requires i < |news| == |olds| && j <= |olds|
    decreases |olds| - j
  {
    if j == |olds| then []
    else (if Near(news[i], olds[j], linkDistance, m) then [(i, j)] else [])
         + RowFrom(news, olds, i, j + 1, linkDistance, m)
  }

  /** The linked pairs whose first particle is `i` or later, in visiting order. */
  function PairsFrom(news: seq<Body>, olds: seq<Body>, i: nat, linkDistance: real, m: Math): seq<Pair>
    requires |news| == |olds| && i <= |news|
    decreases |news| - i
  {
    if i == |news| then []
    else RowFrom(news, olds, i, i + 1, linkDistance, m) + PairsFrom(news, olds, i + 1, linkDistance, m)
  }

  /** The pairs still to visit when the moved particle `i` is next compared
      with the unmoved particle `j`: the rest of row `i`, then the later rows. */
  function Rest(news: seq<Body>, olds: seq<Body>, i: nat, j: nat, linkDistance: real, m: Math): seq<Pair>
    requires i < |news| == |olds| && j <= |olds|
  {
    RowFrom(news, olds, i, j, linkDistance, m) + PairsFrom(news, olds, i + 1, linkDistance, m)
  }

  /** The handles that the particle at index `k` holds once the pairs `ps` have
      been linked, the pair at position `n` of `ps` getting handle `base + n`. */
  function LinksFor(ps: seq<Pair>, base: nat, k: nat): seq<Handle>
  {
    if ps == [] then []
    else
      var last := ps[|ps| - 1];
      LinksFor(ps[..|ps| - 1], base, k) + (if last.0 == k || last.1 == k then [base + |ps| - 1] else [])
  }

  /** The opacity of a link at `distance` after `elapsed` seconds. */
  function LinkOpacity(distance: real, elapsed: real, m: Math): (o: real)
    ensures SinBounded(m) ==> 0.1 <= o <= 0.5
  {
    0.3 + 0.2 * m.sin(elapsed + distance / 50.0)
  }

  /** The line drawn between moved particle `a` and unmoved particle `b`. */
  function LineOf(a: Body, b: Body, color: string, elapsed: real, m: Math): Shape
    requires IsHexColor(color) && SinBounded(m)
  {
    Line(a.x, a.y, b.x, b.y, ColorWithOpacity(color, LinkOpacity(Distance(a, b, m), elapsed, m)))
  }

  /** The lines drawn for the pairs `ps`, in order. */
  function LinesFor(ps: seq<Pair>, news: seq<Body>, olds: seq<Body>, color: string, elapsed: real, m: Math): (r: seq<Shape>)
    requires forall p :: p in ps ==> p.0 < |news| && p.1 < |olds|
    requires IsHexColor(color) && SinBounded(m)
    ensures |r| == |ps|
  {
    seq(|ps|, q requires 0 <= q < |ps| => LineOf(news[ps[q].0], olds[ps[q].1], color, elapsed, m))
  }

  // ---------------------------------------------------------------------------
  // A whole frame

  /** All linked pairs of swarm `s`, whose states at the start of the frame are `olds`. */
  function SwarmPairs(f: Frame, olds: seq<Body>, s: nat): (r: seq<Pair>)
    ensures forall p :: p in r <==> 0 <= p.0 < p.1 < |olds| && Near(Advance(f, olds, s)[p.0], olds[p.1], f.linkDistance, f.m)
    ensures Ordered(r)
  {
    var news := Advance(f, olds, s);
    AllPairsExactly(news, olds, f.linkDistance, f.m);
    PairsOrdered(news, olds, 0, f.linkDistance, f.m);
    PairsFrom(news, olds, 0, f.linkDistance, f.m)
  }

  /** The lines drawn for swarm `s`. */
  function SwarmLines(f: Frame, olds: seq<Body>, s: nat): (r: seq<Shape>)
    requires SinBounded(f.m)
    ensures |r| == |SwarmPairs(f, olds, s)|
  {
    var news := Advance(f, olds, s);
    var ps := SwarmPairs(f, olds, s);
    PairsInRange(news, olds, 0, f.linkDistance, f.m);
    SwarmColorIsHexColor(s);
    LinesFor(ps, news, olds, SwarmColor(s), f.elapsed, f.m)
  }

  /** The sum of `size(t)` over the `t` below `upto`. */
  function Total(size: nat -> nat, upto: nat): nat {
    if upto == 0 then 0 else Total(size, upto - 1) + size(upto - 1)
  }

  /** The number of links of each swarm. */
  function LinkCounts(f: Frame, olds: seq<seq<Body>>): nat -> nat {
    (t: nat) => if t < |olds| then |SwarmPairs(f, olds[t], t)| else 0
  }

  /** The number of links of the swarms below `upto`. */
  function PairCount(f: Frame, olds: seq<seq<Body>>, upto: nat): nat
    requires upto <= |olds|
  {
    Total(LinkCounts(f, olds), upto)
  }

  /** The lines drawn for the swarms below `upto`, swarm by swarm: one per link. */
  function FrameLines(f: Frame, olds: seq<seq<Body>>, upto: nat): (r: seq<Shape>)
    requires upto <= |olds| && SinBounded(f.m)
    ensures |r| == PairCount(f, olds, upto)
  {
    if upto == 0 then []
    else
      var prev := upto - 1;
      PairCountStep(f, olds, prev, upto);
      FrameLines(f, olds, prev) + SwarmLines(f, olds[prev], prev)
  }

  /** The handle given to the first link of swarm `s`, when the frame's first
      link gets handle `base`. */
  function SwarmBase(f: Frame, olds: seq<seq<Body>>, s: nat, base: nat): nat
    requires s <= |olds|
  {
    base + PairCount(f, olds, s)
  }

  // ---------------------------------------------------------------------------
  // Growing the pairs one at a time

  lemma AppendAssociative<T>(a: seq<T>, b: seq<T>, c: seq<T>)
    ensures a + b + c == a + (b + c)
  {
  }

  /** Comparing the moved particle `i` with the unmoved particle `j` visits
      the pair (i, j) first when they are near, and skips it otherwise. */
  lemma RestStep(news: seq<Body>, olds: seq<Body>, i: nat, j: nat, linkDistance: real, m: Math)
    requires i < j < |news| == |olds|
    ensures Rest(news, olds, i, j, linkDistance, m)
      == (if Near(news[i], olds[j], linkDistance, m) then [(i, j)] else []) + Rest(news, olds, i, j + 1, linkDistance, m)
  {
    AppendAssociative(if Near(news[i], olds[j], linkDistance, m) then [(i, j)] else [],
                      RowFrom(news, olds, i, j + 1, linkDistance, m), PairsFrom(news, olds, i + 1, linkDistance, m));
  }

  /** Once row `i` is done, the later rows remain. */
  lemma RestOfRow(news: seq<Body>, olds: seq<Body>, i: nat, linkDistance: real, m: Math)
    requires i < |news| == |olds|
    ensures Rest(news, olds, i, |olds|, linkDistance, m) == PairsFrom(news, olds, i + 1, linkDistance, m)
  {
    assert [] + PairsFrom(news, olds, i + 1, linkDistance, m) == PairsFrom(news, olds, i + 1, linkDistance, m);
  }

  /** A frame leaves every particle of every swarm on the canvas. */
  lemma AdvanceStaysInBounds(f: Frame, olds: seq<seq<Body>>)
    requires 0 <= f.width && 0 <= f.height
    ensures forall t, k :: 0 <= t < |olds| && 0 <= k < |olds[t]| ==> InBounds(Advance(f, olds[t], t)[k], f.width, f.height)
  {
    forall t, k | 0 <= t < |olds| && 0 <= k < |olds[t]|
      ensures InBounds(Advance(f, olds[t], t)[k], f.width, f.height)
    {
      AdvanceAt(f, olds[t], t, k);
    }
  }

  /** The lines of the frame up to the next swarm add that swarm's lines. */
  lemma FrameStep(f: Frame, olds: seq<seq<Body>>, s: nat, next: nat)
    requires s < |olds| && next == s + 1 && SinBounded(f.m)
    ensures FrameLines(f, olds, next) == FrameLines(f, olds, s) + SwarmLines(f, olds[s], s)
  {
  }

  /** Counting the links up to the next swarm adds that swarm's links. */
  lemma PairCountStep(f: Frame, olds: seq<seq<Body>>, s: nat, next: nat)
    requires s < |olds| && next == s + 1
    ensures PairCount(f, olds, next) == PairCount(f, olds, s) + |SwarmPairs(f, olds[s], s)|
  {
  }

  /** A new pair hands the next handle to its two endpoints and to no one else. */
  lemma LinksForSnoc(ps: seq<Pair>, x: Pair, base: nat, k: nat)
    ensures LinksFor(ps + [x], base, k) == LinksFor(ps, base, k) + (if x.0 == k || x.1 == k then [base + |ps|] else [])
  {
    assert (ps + [x])[..|ps|] == ps;
  }

  /** The distance computed from the coordinate differences is `Distance`. */
  lemma DistanceOfGaps(a: Body, b: Body, dx: real, dy: real, m: Math)
    requires dx == a.x - b.x && dy == a.y - b.y
    ensures m.sqrt(dx * dx + dy * dy) == Distance(a, b, m)
  {
    assert dx * dx + dy * dy == SquaredDistance(a, b);
  }

  /** `lines` are the lines of the pairs `all` of a swarm of colour `color`,
      in order: the line of a pair joins moved particle `news[p.0]` and
      unmoved particle `olds[p.1]`. */
  ghost predicate LinesAligned(lines: seq<Shape>, all: seq<Pair>, news: seq<Body>, olds: seq<Body>, color: string, f: Frame) {
    (forall p :: p in all ==> p.0 < |news| && p.1 < |olds|)
    && IsHexColor(color) && SinBounded(f.m)
    && lines == LinesFor(all, news, olds, color, f.elapsed, f.m)
  }

  /** When the pair (i, j) is visited after the pairs `ps0`, the line drawn
      after theirs is the line between moved `i` and unmoved `j`. */
  lemma NextLine(lines: seq<Shape>, all: seq<Pair>, news: seq<Body>, olds: seq<Body>, color: string, f: Frame,
                 i: nat, j: nat, ps0: seq<Pair>)
    requires LinesAligned(lines, all, news, olds, color, f) && i < j < |news| == |olds|
    requires ps0 + [(i, j)] + Rest(news, olds, i, j + 1, f.linkDistance, f.m) == all
    ensures |ps0| < |lines| && lines[|ps0|] == LineOf(news[i], olds[j], color, f.elapsed, f.m)
  {
    assert all[|ps0|] == (i, j);
  }

  // ---------------------------------------------------------------------------
  // Properties of one swarm's pairs

  lemma {:induction false} RowInRange(news: seq<Body>, olds: seq<Body>, i: nat, j: nat, linkDistance: real, m: Math)
    requires i < |news| == |olds| && j <= |olds|
    ensures forall p :: p in RowFrom(news, olds, i, j, linkDistance, m) ==> p.0 == i && j <= p.1 < |olds|
    decreases |olds| - j
  {
    if j < |olds| {
      RowInRange(news, olds, i, j + 1, linkDistance, m);
    }
  }

  lemma {:induction false} PairsInRange(news: seq<Body>, olds: seq<Body>, i: nat, linkDistance: real, m: Math)
    requires |news| == |olds| && i <= |news|
    ensures forall p :: p in PairsFrom(news, olds, i, linkDistance, m) ==> i <= p.0 < p.1 < |olds|
    decreases |news| - i
  {
    if i < |news| {
      PairsInRange(news, olds, i + 1, linkDistance, m);
      RowInRange(news, olds, i, i + 1, linkDistance, m);
    }
  }

  /** A row holds exactly the later particles near the moved particle `i`. */
  lemma {:induction false} RowExactly(news: seq<Body>, olds: seq<Body>, i: nat, j: nat, linkDistance: real, m: Math, p: Pair)
    requires i < |news| == |olds| && j <= |olds|
    ensures p in RowFrom(news, olds, i, j, linkDistance, m)
        <==> p.0 == i && j <= p.1 < |olds| && Near(news[i], olds[p.1], linkDistance, m)
    decreases |olds| - j
  {
    if j < |olds| {
      RowExactly(news, olds, i, j + 1, linkDistance, m, p);
    }
  }

  /** The pairs of a swarm are exactly the pairs i < j whose moved i is within
      the link distance of unmoved j: no pair is missed, none is invented. */
  lemma {:induction false} PairsExactly(news: seq<Body>, olds: seq<Body>, i: nat, linkDistance: real, m: Math, p: Pair)
    requires |news| == |olds| && i <= |news|
    ensures p in PairsFrom(news, olds, i, linkDistance, m)
        <==> i <= p.0 < p.1 < |olds| && Near(news[p.0], olds[p.1], linkDistance, m)
    decreases |news| - i
  {
    if i < |news| {
      PairsExactly(news, olds, i + 1, linkDistance, m, p);
      RowExactly(news, olds, i, i + 1, linkDistance, m, p);
    }
  }

  /** `PairsExactly` for every pair of the whole swarm. */
  lemma AllPairsExactly(news: seq<Body>, olds: seq<Body>, linkDistance: real, m: Math)
    requires |news| == |olds|
    ensures forall p :: (p in PairsFrom(news, olds, 0, linkDistance, m)
      <==> 0 <= p.0 < p.1 < |olds| && Near(news[p.0], olds[p.1], linkDistance, m))
  {
    forall p ensures p in PairsFrom(news, olds, 0, linkDistance, m)
        <==> 0 <= p.0 < p.1 < |olds| && Near(news[p.0], olds[p.1], linkDistance, m)
    {
      PairsExactly(news, olds, 0, linkDistance, m, p);
    }
  }

  /** Pair `a` is visited before pair `b`. */
  predicate Before(a: Pair, b: Pair) {
    a.0 < b.0 || (a.0 == b.0 && a.1 < b.1)
  }

  predicate Ordered(ps: seq<Pair>) {
    forall a, b :: 0 <= a < b < |ps| ==> Before(ps[a], ps[b])
  }

  /** Two ordered lists, every pair of the first visited before every pair of
      the second, make one ordered list. */
  lemma OrderedAppend(ps: seq<Pair>, qs: seq<Pair>)
    requires Ordered(ps) && Ordered(qs)
    requires forall p, q :: p in ps && q in qs ==> Before(p, q)
    ensures Ordered(ps + qs)
  {
    var r := ps + qs;
    forall a, b | 0 <= a < b < |r| ensures Before(r[a], r[b]) {
      if b < |ps| {
        assert r[a] == ps[a] && r[b] == ps[b];
      } else if a < |ps| {
        assert r[a] == ps[a] && ps[a] in ps && r[b] == qs[b - |ps|] && qs[b - |ps|] in qs;
      } else {
        assert r[a] == qs[a - |ps|] && r[b] == qs[b - |ps|];
      }
    }
  }

  lemma {:induction false} RowOrdered(news: seq<Body>, olds: seq<Body>, i: nat, j: nat, linkDistance: real, m: Math)
    requires i < |news| == |olds| && j <= |olds|
    ensures Ordered(RowFrom(news, olds, i, j, linkDistance, m))
    decreases |olds| - j
  {
    if j < |olds| {
      RowOrdered(news, olds, i, j + 1, linkDistance, m);
      RowInRange(news, olds, i, j + 1, linkDistance, m);
      OrderedAppend(if Near(news[i], olds[j], linkDistance, m) then [(i, j)] else [],
                    RowFrom(news, olds, i, j + 1, linkDistance, m));
    }
  }

  /** Pairs are produced in strictly increasing visiting order, so no pair is
      linked twice in a frame. */
  lemma {:induction false} PairsOrdered(news: seq<Body>, olds: seq<Body>, i: nat, linkDistance: real, m: Math)
    requires |news| == |olds| && i <= |news|
    ensures Ordered(PairsFrom(news, olds, i, linkDistance, m))
    decreases |news| - i
  {
    if i < |news| {
      PairsOrdered(news, olds, i + 1, linkDistance, m);
      RowOrdered(news, olds, i, i + 1, linkDistance, m);
      PairsInRange(news, olds, i + 1, linkDistance, m);
      RowInRange(news, olds, i, i + 1, linkDistance, m);
      OrderedAppend(RowFrom(news, olds, i, i + 1, linkDistance, m), PairsFrom(news, olds, i + 1, linkDistance, m));
    }
  }

  lemma NoPairTwice(ps: seq<Pair>)
    requires Ordered(ps)
    ensures forall a, b :: 0 <= a < |ps| && 0 <= b < |ps| && a != b ==> ps[a] != ps[b]
  {
    forall a, b | 0 <= a < |ps| && 0 <= b < |ps| && a != b ensures ps[a] != ps[b] {
      if a < b { assert Before(ps[a], ps[b]); } else { assert Before(ps[b], ps[a]); }
    }
  }

  // ---------------------------------------------------------------------------
  // Properties of the handles

  /** A particle holds the handle of a pair exactly when it is one of the
      pair's two endpoints, and holds no other handle. */
  lemma {:induction false} LinksForExactly(ps: seq<Pair>, base: nat, k: nat, h: Handle)
    ensures h in LinksFor(ps, base, k)
        <==> base <= h < base + |ps| && (ps[h - base].0 == k || ps[h - base].1 == k)
  {
    if ps != [] {
      LinksForExactly(ps[..|ps| - 1], base, k, h);
    }
  }

  /** The handles a particle holds increase strictly: one per pair, in visiting order. */
  lemma {:induction false} LinksForIncreasing(ps: seq<Pair>, base: nat, k: nat)
    ensures forall a, b :: 0 <= a < b < |LinksFor(ps, base, k)| ==> LinksFor(ps, base, k)[a] < LinksFor(ps, base, k)[b]
  {
    if ps != [] {
      var init := ps[..|ps| - 1];
      LinksForIncreasing(init, base, k);
      var l := LinksFor(init, base, k);
      var r := LinksFor(ps, base, k);
      assert r == l + (if ps[|ps| - 1].0 == k || ps[|ps| - 1].1 == k then [base + |ps| - 1] else []);
      forall a, b | 0 <= a < b < |r| ensures r[a] < r[b] {
        if b < |l| {
          assert r[a] == l[a] && r[b] == l[b];
        } else {
          assert r[a] == l[a] && l[a] in l;
          LinksForExactly(init, base, k, l[a]);
        }
      }
    }
  }

  /** Every handle of a swarm's frame is held by exactly its pair's two
      particles: the two endpoints are different and both hold it. */
  lemma HandleHeldByBothEndpoints(ps: seq<Pair>, base: nat, n: nat)
    requires n < |ps| && ps[n].0 < ps[n].1
    ensures base + n in LinksFor(ps, base, ps[n].0)
    ensures base + n in LinksFor(ps, base, ps[n].1)
    ensures forall k :: k != ps[n].0 && k != ps[n].1 ==> base + n !in LinksFor(ps, base, k)
  {
    LinksForExactly(ps, base, ps[n].0, base + n);
    LinksForExactly(ps, base, ps[n].1, base + n);
    forall k | k != ps[n].0 && k != ps[n].1 ensures base + n !in LinksFor(ps, base, k) {
      LinksForExactly(ps, base, k, base + n);
    }
  }

  /** The test for a pair uses one distance, so it does not depend on the
      order in which the two bodies are given. */
  lemma NearSymmetric(a: Body, b: Body, linkDistance: real, m: Math)
    ensures Near(a, b, linkDistance, m) <==> Near(b, a, linkDistance, m)
  {
    var dx, dy := a.x - b.x, a.y - b.y;
    assert (b.x - a.x) * (b.x - a.x) == dx * dx by { assert b.x - a.x == -dx; }
    assert (b.y - a.y) * (b.y - a.y) == dy * dy by { assert b.y - a.y == -dy; }
    assert SquaredDistance(a, b) == SquaredDistance(b, a);
  }

  /** With a true square root the link test is the squared-distance test. */
  lemma NearBySquares(a: Body, b: Body, linkDistance: real, m: Math)
    requires IsSqrt(m) && linkDistance >= 0.0
    ensures Near(a, b, linkDistance, m) <==> SquaredDistance(a, b) < linkDistance * linkDistance
  {
    var d2 := SquaredDistance(a, b);
    assert d2 >= 0.0;
    var r := m.sqrt(d2);
    assert r >= 0.0 && r * r == d2;
    RootBelowIff(r, linkDistance);
  }

  lemma RootBelowIff(r: real, L: real)
    requires r >= 0.0 && L >= 0.0
    ensures r < L <==> r * r < L * L
  {
    if r < L {
      assert L * L - r * r == (L - r) * (L + r);
      ProductPositive(L - r, L + r);
    } else {
      assert r * r - L * L == (r - L) * (r + L);
      ProductNonNegative(r - L, r + L);
    }
  }

  /** Sign facts about a product, stated apart so that the solver meets them
      without the rest of `RootBelowIff`'s context. */
  lemma ProductPositive(a: real, b: real)
    requires a > 0.0 && b > 0.0
    ensures a * b > 0.0
  {
  }

  lemma ProductNonNegative(a: real, b: real)
    requires a >= 0.0 && b >= 0.0
    ensures a * b >= 0.0
  {
  }

  // ---------------------------------------------------------------------------
  // Properties of a whole frame

  lemma {:induction false} PairCountGrows(f: Frame, olds: seq<seq<Body>>, s: nat, t: nat)
    requires s < t <= |olds|
    ensures PairCount(f, olds, s) + |SwarmPairs(f, olds[s], s)| <= PairCount(f, olds, t)
  {
    TotalGrows(LinkCounts(f, olds), s, t);
  }

  /** A sum of naturals grows by at least each later term. */
  lemma {:induction false} TotalGrows(size: nat -> nat, s: nat, t: nat)
    requires s < t
    ensures Total(size, s) + size(s) <= Total(size, t)
    decreases t
  {
    var prev := t - 1;
    if s < prev {
      TotalGrows(size, s, prev);
    }
  }

  /** Handles of different swarms never coincide: a link never joins two
      swarms, even when their particles sit on the same point. */
  lemma SwarmsShareNoHandle(f: Frame, olds: seq<seq<Body>>, base: nat, s: nat, t: nat, k: nat, l: nat, h: Handle)
    requires s < |olds| && t < |olds| && s != t
    requires h in LinksFor(SwarmPairs(f, olds[s], s), SwarmBase(f, olds, s, base), k)
    ensures h !in LinksFor(SwarmPairs(f, olds[t], t), SwarmBase(f, olds, t, base), l)
  {
    LinksForExactly(SwarmPairs(f, olds[s], s), SwarmBase(f, olds, s, base), k, h);
    LinksForExactly(SwarmPairs(f, olds[t], t), SwarmBase(f, olds, t, base), l, h);
    if s < t {
      PairCountGrows(f, olds, s, t);
    } else {
      PairCountGrows(f, olds, t, s);
    }
  }
}
