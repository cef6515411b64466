# Particle swarm animation — a verified model

`gaojijihe.py` is a tkinter animation. Several coloured swarms of particles
drift about a canvas and are pulled toward the mouse pointer. Every frame, each
particle is joined by a faded line to the nearby particles of its own swarm.
This project models the logic under the widgets and proves properties of it.

- **Palette** (`palette.dfy`): the seven-colour swarm palette, and the
  `#RRGGBB` parse / scale / re-encode that darkens a link's colour.
- **Motion** (`motion.dfy`): one particle move as pure functions over reals.
  These are the random turn, the pull toward the pointer (a distance floored
  at 1 and a strength capped at 1), the step, and the edge snap.
- **Drawing** (`canvas.dfy`): the canvas, reduced to a log of created items
  and a log of deleted handles. A handle is the index of its item in the
  creation log, so handles come from a counter and are never reused.
- **Links** (`links.dfy`): the specification of one frame as values. It gives
  the swarm's states after every particle has moved, the pairs linked (in
  visiting order), the handle each particle holds, and the lines drawn.
- **Particles** (`particle.dfy`): the `Particle` class (its constructor and
  `Move`), and predicates describing swarms part-way through a frame.
- **Animation** (`animation.dfy`): the `ParticleAnimation` class. It covers
  building and rebuilding the swarms, the density and parameter setters, the
  pointer handler and the frame (`Animate`). The frame's loops are module-level
  methods proved against the `Links` specification.

A frame keeps the source's interleaving. Particle `i` moves, and is then
compared with every later particle `j` of its swarm. Those later particles have
not moved yet in this frame. So a pair is linked when the *moved* `i` is within
the link distance of the *unmoved* `j`.

## Model

| member | source | states |
|---|---|---|
| Palette.SwarmColor | gaojijihe.py:26-29 | a swarm's colour is always one of the seven palette entries |
| Palette.SwarmColorIsHexColor | gaojijihe.py:28 | every swarm colour is `#` followed by six hexadecimal digits, so every swarm colour can be faded |
| Palette.SwarmColorPeriodic | gaojijihe.py:29 | swarm ids that differ by a multiple of seven get the same colour |
| Palette.SwarmColorSameIff | gaojijihe.py:28-29 | two swarms share a colour if and only if their ids agree modulo seven (the seven entries are pairwise different) |
| Palette.ParseFormatByte | gaojijihe.py:290-293 | a byte written with `:02x` reads back, by `int(_, 16)`, as the same byte |
| Palette.FormatParseByte | gaojijihe.py:290-293 | two hexadecimal digits parsed and re-formatted give the same two digits in lower case |
| Palette.FormatChannels | gaojijihe.py:293 | three bytes written after `#` give a lower-case colour whose red, green and blue channels read back as those bytes |
| Palette.Scale | gaojijihe.py:293 | `int(v * opacity)` for an opacity in [0, 1] never exceeds `v` |
| Palette.ScaleMonotone | gaojijihe.py:293 | a larger opacity never gives a smaller scaled channel |
| Palette.ColorWithOpacity | gaojijihe.py:288-293 | the darkened colour is `#` followed by six lower-case hex digits, and each of its channels is the base channel times the opacity, truncated |
| Palette.FadedChannel | gaojijihe.py:290-293 | channel `k` of the darkened colour is base channel `k` times the opacity, truncated |
| Palette.FadeIsMonotone | gaojijihe.py:288-293 | fading never brightens a channel, and a lower opacity never gives a brighter channel than a higher one |
| Palette.FullOpacityKeepsColor | gaojijihe.py:288-293 | at opacity 1 the result is the base colour in lower case (`#FF6060` gives `#ff6060`) |
| Palette.ZeroOpacityIsBlack | gaojijihe.py:288-293 | at opacity 0 every colour becomes `#000000` |
| Motion.PullDistance | gaojijihe.py:36-38 | the pull distance is at least 1 and at least the computed square root |
| Motion.PullDistanceIsEuclidean | gaojijihe.py:38 | with a true square root, the pull distance squared is max(1, dx² + dy²) |
| Motion.Attraction | gaojijihe.py:41 | the pull strength is at most 1, and is at least 0 when the sensitivity is not negative |
| Motion.AttractionFallsWithDistance | gaojijihe.py:40-41 | for a non-negative sensitivity, the pull never grows as the pointer moves farther away |
| Motion.AttractionSaturatesIff | gaojijihe.py:41 | the pull is exactly 1 if and only if 100 × sensitivity is at least the distance |
| Motion.Wrap | gaojijihe.py:55-58 | the result lies in [0, extent]; a coordinate in range is unchanged; below 0 it becomes the extent; above the extent it becomes 0 |
| Motion.WrapIdempotent | gaojijihe.py:55-58 | applying the edge rule twice is the same as applying it once |
| Motion.WrapSnapsNotModulo | gaojijihe.py:55-58 | an overshoot of any size snaps to the opposite edge exactly (not a modulo) |
| Motion.Snapped | gaojijihe.py:55-58 | after the edge rule both coordinates lie on the canvas |
| Motion.Step | gaojijihe.py:31-58 | one move leaves the particle on the canvas and keeps its own speed |
| Motion.StepsStayInBounds | gaojijihe.py:31-58 | a particle that starts on the canvas stays on it after any number of moves |
| Particles.Particle.constructor | gaojijihe.py:8-24 | the particle starts at the drawn position, speed and heading, with size 3, the swarm's colour and no links; its oval, centred on it with radius 3, is the next item created on the canvas |
| Particles.Particle.Move | gaojijihe.py:31-58 | the new position and heading are one `Motion.Step` of the old state; the particle stays on the canvas; its links are untouched |
| Animation.PerSwarm | gaojijihe.py:216 | particles per swarm is max(1, particleDensity // swarmDensity): at least 1, and the floor quotient when the density allows it |
| Animation.ParticleAnimation.constructor | gaojijihe.py:68-96 | the pointer starts at the canvas centre; the defaults are sensitivity 0.8, 50 particles, 3 swarms, link distance 150 and speed 1; the swarms are then built from fresh particles on a fresh canvas |
| Animation.ParticleAnimation.CreateSwarms | gaojijihe.py:213-223 | builds exactly `swarmDensity` swarms of `PerSwarm` fresh particles each; every particle of swarm `s` is tagged `s` and has its colour; the ovals are created swarm after swarm, in order; no link is held |
| Animation.ParticleAnimation.BuildSwarms | gaojijihe.py:218-223 | the swarm loop: `swarmDensity` swarms of `perSwarm` distinct fresh particles, each made for its swarm, their ovals created swarm after swarm from the canvas's next handle; nothing deleted |
| Animation.ParticleAnimation.SpawnSwarm | gaojijihe.py:218-222 | one swarm: `perSwarm` distinct fresh particles, their ovals at consecutive new handles |
| Animation.TeardownSwarm | gaojijihe.py:239-242 | each particle's oval, then each of its links, is deleted, particle by particle; nothing is created |
| Animation.TeardownSwarms | gaojijihe.py:238-242 | every swarm is torn down, swarm by swarm |
| Particles.TeardownExactly | gaojijihe.py:239-242 | tearing down a swarm deletes a handle if and only if it is the oval of one of its particles or a link one of them holds |
| Particles.AllTeardownExactly | gaojijihe.py:238-242 | resetting deletes a handle if and only if it is the oval of some particle or a link some particle holds |
| Animation.DeleteEach | gaojijihe.py:241-242 | each handle of a link list is deleted, in list order; nothing is created |
| Drawing.Canvas.CreateOval | gaojijihe.py:19-23 | an oval gets the next handle, never used before, and is appended to the canvas |
| Drawing.Canvas.CreateLine | gaojijihe.py:278-281 | a line gets the next handle, never used before, and is appended to the canvas |
| Drawing.Canvas.Delete | gaojijihe.py:239-242 | a deletion is recorded; no item is created |
| Animation.ParticleAnimation.ResetSwarms | gaojijihe.py:235-245 | every old oval and every link handle held is deleted, in loop order, and then the swarms are rebuilt |
| Animation.ParticleAnimation.UpdateParticleCount | gaojijihe.py:225-228 | sets the particle density, then tears down every old oval and held link and rebuilds the swarms from fresh particles; earlier canvas items stay |
| Animation.ParticleAnimation.UpdateSwarmCount | gaojijihe.py:230-233 | sets the swarm density, then tears down every old oval and held link and rebuilds the swarms from fresh particles; earlier canvas items stay |
| Animation.ParticleAnimation.SetCursorSensitivity | gaojijihe.py:130 | sets the sensitivity only; no rebuild, and the animation's invariant is kept |
| Animation.ParticleAnimation.SetLinkDistance | gaojijihe.py:184 | sets the link distance only; no rebuild |
| Animation.ParticleAnimation.SetParticleSpeed | gaojijihe.py:202 | sets the speed factor only; no rebuild |
| Animation.ParticleAnimation.OnMouseMove | gaojijihe.py:247-249 | records the pointer position only |
| Animation.ClearSwarm | gaojijihe.py:254-257 | every link a particle held is deleted and every list emptied; positions are unchanged |
| Animation.ClearSwarms | gaojijihe.py:252-257 | the clear phase over all swarms: every previously held handle is deleted, swarm by swarm, and every particle then holds no link |
| Animation.FlattenExactly | gaojijihe.py:254-256 | a handle is deleted by a swarm's clear loop if and only if one of its particles held it |
| Animation.Flatten2Exactly | gaojijihe.py:252-256 | a handle is deleted by the clear phase if and only if some particle held it |
| Animation.ParticleAnimation.ClearLinks | gaojijihe.py:252-257 | the clear phase of a frame, on the animation's own swarms |
| Links.Advance | gaojijihe.py:260-262 | moving a swarm keeps its number of particles (each one's new state is stated by `Links.AdvanceAt`) |
| Links.SwarmPairs | gaojijihe.py:260-271 | a swarm's linked pairs are exactly the `(i, j)` with `i < j` whose moved `i` is within the link distance of unmoved `j`, in strictly increasing visiting order |
| Links.AdvanceAt | gaojijihe.py:260-262 | after a swarm's moves, particle `k` has made exactly one `Motion.Step` with its own jitter |
| Links.AdvanceStaysInBounds | gaojijihe.py:260-262 | after a frame's moves every particle of every swarm is on the canvas |
| Links.LinkOpacity | gaojijihe.py:273-274 | the link opacity lies in [0.1, 0.5], inside the range the darkening accepts |
| Links.PairsInRange | gaojijihe.py:261-265 | every linked pair `(i, j)` has `i < j` within one swarm |
| Links.RowExactly | gaojijihe.py:265-271 | particle `i`'s row holds exactly the later particles near the moved `i` |
| Links.PairsExactly | gaojijihe.py:260-271 | a pair is linked if and only if `i < j` and the moved `i` is within the link distance of the unmoved `j` |
| Links.PairsOrdered | gaojijihe.py:261-265 | pairs are linked in strictly increasing visiting order |
| Links.NoPairTwice | gaojijihe.py:261-265 | no pair is linked twice in a frame |
| Links.NearSymmetric | gaojijihe.py:266-271 | the distance test does not depend on which particle is given first |
| Links.NearBySquares | gaojijihe.py:266-271 | with a true square root and a non-negative link distance, the test is dx² + dy² < L² |
| Links.LinksForExactly | gaojijihe.py:278-283 | a particle holds a handle if and only if it is an endpoint of the pair that got that handle |
| Links.LinksForIncreasing | gaojijihe.py:278-283 | the handles a particle holds are strictly increasing |
| Links.HandleHeldByBothEndpoints | gaojijihe.py:278-283 | each new handle is held by both endpoints of its pair and by no other particle |
| Links.SwarmsShareNoHandle | gaojijihe.py:260-283 | no handle is held in two swarms: particles of different swarms are never linked |
| Links.FrameLines | gaojijihe.py:260-283 | a frame draws exactly one line per linked pair |
| Animation.LinkPair | gaojijihe.py:282-283 | the new handle is appended to both endpoints' lists, and every other particle's links are as the pairs so far say |
| Animation.DrawLink | gaojijihe.py:277-283 | creates the line between moved `i` and unmoved `j` as the swarm's next line, and records its handle on both |
| Animation.LinkIfNear | gaojijihe.py:266-283 | links `(i, j)` exactly when the moved `i` is within the link distance of the unmoved `j`; otherwise nothing changes |
| Animation.LinkRow | gaojijihe.py:265-283 | the inner loop: particle `i` is linked to every later particle within reach, in index order |
| Animation.MoveAndLink | gaojijihe.py:261-283 | particle `i` makes its move and then its row of links |
| Animation.MoveEach | gaojijihe.py:261-283 | the particle loop of one swarm, from the states at the start of the frame to the moved states |
| Animation.MoveSwarm | gaojijihe.py:261-283 | one swarm's phase: states as `Advance`, each particle's links as `LinksFor(SwarmPairs)` from the next handle on, canvas extended by `SwarmLines`, nothing deleted |
| Animation.MoveSwarmAt | gaojijihe.py:260-283 | swarm `s` of many makes its phase, its first link getting the canvas's next handle |
| Animation.MoveSwarmsTo | gaojijihe.py:260-283 | swarm after swarm, each swarm reaches its moved states and links, other swarms untouched |
| Animation.MoveSwarms | gaojijihe.py:260-283 | the move-and-link phase over all swarms: the canvas gains exactly the frame's lines, and every particle ends on the canvas |
| Animation.ParticleAnimation.MoveAll | gaojijihe.py:260-283 | the second phase on the animation's own swarms; the animation's invariant holds afterwards |
| Animation.LaunchedStart | gaojijihe.py:213-223 | with the default densities, particle `k` of swarm `t` starts in its drawn state, holds no link, and has oval `16 * t + k` |
| Animation.Open | gaojijihe.py:68-102 | creation followed by the first frame: 3 swarms of 16 fresh particles, 48 ovals in swarm order, then exactly the first frame's lines; nothing is deleted, because no link was held yet |
| Animation.ParticleAnimation.Animate | gaojijihe.py:251-283 | one frame, reading the current pointer, sensitivity, speed and link distance: every held link is deleted; then each swarm's particles are moved and linked as the `Links` specification says; the canvas gains exactly the frame's lines; the invariant is kept |

## Left out

- The tkinter window, style, control frame, sliders and labels are left out (gaojijihe.py:84-89, 104-211, 295-299). Only the slider callbacks are modelled, as the setter methods.
- `random.randint` and `random.uniform` become parameters. Each particle's start is `spawn(s, k)` (a `Spawn` record). Each move's heading jitter is `jitter(s, k)`. The ranges of the draws (speed 0.5–2.0, angle 0–2π, jitter ±0.2) are not constrained, except that start positions lie on the canvas.
- `math.sqrt`, `math.sin`, `math.cos` and `math.atan2` are floating-point library calls. They are passed in as a `Math` record of functions. A lemma that needs `sqrt` to be a true square root, or `sin` to lie in [-1, 1], requires it. The steering geometry is not verified.
- Python floats are modelled as exact reals. Rounding is not modelled.
- `Particles.Particle.Move`: the heading jitter is a parameter rather than `random.uniform(-0.2, 0.2)`, so its bound is not stated.
- `canvas.coords` (gaojijihe.py:61-65) repositions the oval each move. It is not modelled: the canvas records only created items and deleted handles.
- Tk numbers canvas items from 1. The model's handle is the item's index in the creation log, which starts at 0. Only fresh, never-reused handles matter.
- `time.time()` is read once per link (gaojijihe.py:273). The model reads one `elapsed` per frame, so the tiny drift of the clock between links in one frame is not captured.
- The first frame that `__init__` starts (gaojijihe.py:102) is modelled by `Animation.Open`, which composes the constructor with `Animate`. Later frames are `Animate` calls made by the caller.
- `root.after(30, self.animate)` (gaojijihe.py:286) and the `<Motion>` binding are event-loop scheduling. `Animate` models a single frame and `OnMouseMove` a single event.
- Python `int()` truncates toward zero. It is applied only to a non-negative product here, so it is modelled as `Floor`.
- `Animation.ParticleAnimation.UpdateSwarmCount` requires a density of at least 1. A density of 0 would make the rebuild divide by zero. The swarm slider's range starts at 1 (gaojijihe.py:162).
- `Animation.ParticleAnimation.ResetSwarms`, `UpdateParticleCount` and `UpdateSwarmCount` require the spawn draws to lie on the canvas, which `randint(0, width)` and `randint(0, height)` guarantee.
