/**
  The animated particle background of the landing page: a fixed pool of
  glow particles that drift with constant speed and reflect their velocity
  (never their position) when they leave the canvas by more than a soft margin.

  Positions and velocities are reals; the random draws are parameters.
*/
module Particles {

  /** Number of particles created once at start-up. */
  const PARTICLE_COUNT: nat := 40

  /** Distance beyond each canvas edge before a velocity component is reflected. */
  const MARGIN: real := 20.0

  /** Largest speed per axis that initialisation can produce (excluded). */
  const MAX_SPEED: real := 0.125

  function Abs(r: real): real
  {
    if r < 0.0 then -r else r
  }

  /** One particle record. */
  datatype Particle = Particle(radius: real, x: real, y: real, vx: real, vy: real)

  /** Position and velocity along one axis. */
  datatype Axis = Axis(pos: real, vel: real)

  function XAxis(p: Particle): Axis { Axis(p.x, p.vx) }
  function YAxis(p: Particle): Axis { Axis(p.y, p.vy) }

  /** True when `pos` lies beyond the soft margin around [0, extent]. */
  predicate OutsideMargin(pos: real, extent: real)
  {
    pos < -MARGIN || pos > extent + MARGIN
  }

  // ---------------------------------------------------------------------
  // One tick along one axis
  // ---------------------------------------------------------------------

  /** Integrate the position, then negate the velocity if the new position is outside the margin. */
  function AxisStep(a: Axis, extent: real): (b: Axis)
    ensures b.pos - a.pos == a.vel                              // no clamping, ever
    ensures Abs(b.vel) == Abs(a.vel)                            // speed is kept
    ensures OutsideMargin(b.pos, extent) ==> b.vel == -a.vel   // reflected outside
    ensures !OutsideMargin(b.pos, extent) ==> b.vel == a.vel   // untouched inside
  {
    var pos := a.pos + a.vel;
    Axis(pos, if OutsideMargin(pos, extent) then -a.vel else a.vel)
  }

  /** `n` ticks along one axis on a canvas of fixed size; the velocity only ever changes sign. */
  function AxisIter(a: Axis, extent: real, n: nat): (r: Axis)
    ensures r.vel == a.vel || r.vel == -a.vel
  {
    if n == 0 then a else AxisStep(AxisIter(a, extent, n - 1), extent)
  }

  // ---------------------------------------------------------------------
  // One tick of one particle and of the whole pool
  // ---------------------------------------------------------------------

  /** The per-particle update: the two axes evolve independently; the radius is never touched. */
  function Step(p: Particle, width: real, height: real): (q: Particle)
    ensures q.radius == p.radius
    ensures XAxis(q) == AxisStep(XAxis(p), width)
    ensures YAxis(q) == AxisStep(YAxis(p), height)
  {
    var ax := AxisStep(XAxis(p), width);
    var ay := AxisStep(YAxis(p), height);
    Particle(p.radius, ax.pos, ay.pos, ax.vel, ay.vel)
  }

  /** One frame: every particle is updated from its own fields and the canvas size only. */
  function TickAll(ps: seq<Particle>, width: real, height: real): (r: seq<Particle>)
    ensures |r| == |ps|
    ensures forall i :: 0 <= i < |ps| ==> r[i] == Step(ps[i], width, height)
  {
    seq(|ps|, i requires 0 <= i < |ps| => Step(ps[i], width, height))
  }

  /** `n` frames on a canvas of fixed size: no particle is created or destroyed, no radius changes. */
  function Ticks(ps: seq<Particle>, width: real, height: real, n: nat): (r: seq<Particle>)
    ensures |r| == |ps|
    ensures forall i :: 0 <= i < |ps| ==> r[i].radius == ps[i].radius
  {
    if n == 0 then ps else TickAll(Ticks(ps, width, height, n - 1), width, height)
  }

  /**
    After any number of frames the pool has the same size, every radius is
    unchanged, and each axis of each particle has evolved on its own, exactly
    as `AxisIter` prescribes for that axis alone.
  */
  lemma {:induction false} TicksDecouple(ps: seq<Particle>, width: real, height: real, n: nat)
    ensures |Ticks(ps, width, height, n)| == |ps|
    ensures forall i :: 0 <= i < |ps| ==>
      Ticks(ps, width, height, n)[i].radius == ps[i].radius &&
      XAxis(Ticks(ps, width, height, n)[i]) == AxisIter(XAxis(ps[i]), width, n) &&
      YAxis(Ticks(ps, width, height, n)[i]) == AxisIter(YAxis(ps[i]), height, n)
  {
    if n > 0 {
      TicksDecouple(ps, width, height, n - 1);
    }
  }

  // ---------------------------------------------------------------------
  // Speed and the soft-margin band
  // ---------------------------------------------------------------------

  /**
    Within one step of the margin band, and heading back inward whenever
    outside the band.
  */
  predicate NearBand(a: Axis, extent: real)
  {
    -MARGIN - Abs(a.vel) <= a.pos <= extent + MARGIN + Abs(a.vel) &&
    (a.pos < -MARGIN ==> a.vel >= 0.0) &&
    (a.pos > extent + MARGIN ==> a.vel <= 0.0)
  }

  /** One tick keeps `NearBand` when one step cannot jump across the whole band. */
  lemma NearBandStep(a: Axis, extent: real)
    requires Abs(a.vel) <= extent + 2.0 * MARGIN
    requires NearBand(a, extent)
    ensures NearBand(AxisStep(a, extent), extent)
  {
  }

  /**
    Soft-margin invariant: a particle that starts near the band stays near it
    for ever, provided one step is shorter than the band is wide.
  */
  lemma {:induction false} NearBandKept(a: Axis, extent: real, n: nat)
    requires Abs(a.vel) <= extent + 2.0 * MARGIN
    requires NearBand(a, extent)
    ensures NearBand(AxisIter(a, extent, n), extent)
  {
    if n > 0 {
      NearBandKept(a, extent, n - 1);
      NearBandStep(AxisIter(a, extent, n - 1), extent);
    }
  }

  // ---------------------------------------------------------------------
  // Particles stranded far outside (for instance after the canvas shrinks)
  // ---------------------------------------------------------------------

  /** Further outside the margin than one step can recover. */
  predicate Stranded(a: Axis, extent: real)
  {
    a.pos > extent + MARGIN + Abs(a.vel) || a.pos < -MARGIN - Abs(a.vel)
  }

  /** A stranded particle is back at exactly the same position and velocity after two ticks. */
  lemma StrandedPeriodTwo(a: Axis, extent: real)
    requires Stranded(a, extent)
    ensures OutsideMargin(AxisStep(a, extent).pos, extent)
    ensures AxisStep(AxisStep(a, extent), extent) == a
  {
  }

  /**
    A stranded particle oscillates between two states for ever and never
    re-enters the margin band.
  */
  lemma {:induction false} StrandedForever(a: Axis, extent: real, n: nat)
    requires Stranded(a, extent)
    ensures AxisIter(a, extent, n) == if n % 2 == 0 then a else AxisStep(a, extent)
    ensures OutsideMargin(AxisIter(a, extent, n).pos, extent)
  {
    StrandedPeriodTwo(a, extent);
    if n > 0 {
      StrandedForever(a, extent, n - 1);
    }
  }

  /** Total displacement of `n` steps of velocity `v`. */
  function Travel(n: nat, v: real): real
  {
    if n == 0 then 0.0 else Travel(n - 1, v) + v
  }

  /** The displacement of `n` equal steps is `n` times the step, so it has the step's sign. */
  lemma {:induction false} TravelIsProduct(n: nat, v: real)
    ensures Travel(n, v) == (n as real) * v
    ensures v >= 0.0 ==> Travel(n, v) >= 0.0
    ensures v <= 0.0 ==> Travel(n, v) <= 0.0
  {
    if n > 0 {
      TravelIsProduct(n - 1, v);
    }
  }

  /**
    Inside the band a particle drifts in a straight line: as long as the start
    and the end of an `n`-step straight drift are inside the band, so is every
    point in between, and no reflection happens.
  */
  lemma {:induction false} DriftInside(a: Axis, extent: real, n: nat)
    requires !OutsideMargin(a.pos, extent)
    requires !OutsideMargin(a.pos + Travel(n, a.vel), extent)
    ensures AxisIter(a, extent, n) == Axis(a.pos + Travel(n, a.vel), a.vel)
  {
    if n > 0 {
      TravelIsProduct(n - 1, a.vel);
      DriftInside(a, extent, n - 1);
    }
  }

  /**
    Reflection does not clamp: at 25 units beyond the right edge, moving
    right at 0.1, one tick moves the particle further out and flips its velocity.
  */
  lemma ReflectionDoesNotClamp(width: real)
    ensures AxisStep(Axis(width + 25.0, 0.1), width) == Axis(width + 25.1, -0.1)
  {
  }

  /**
    On an 800 by 600 canvas, a particle leaving x = 0 at -0.1 per frame drifts
    for 200 frames and reaches exactly the edge of the margin; it crosses it on
    frame 201, where its velocity flips.
  */
  lemma DriftThenReflect()
    ensures AxisIter(Axis(0.0, -0.1), 800.0, 1) == Axis(-0.1, -0.1)
    ensures forall k: nat :: k <= 200 ==> AxisIter(Axis(0.0, -0.1), 800.0, k).vel == -0.1
    ensures AxisIter(Axis(0.0, -0.1), 800.0, 201) == Axis(-20.1, 0.1)
  {
    var a := Axis(0.0, -0.1);
    forall k: nat | k <= 200
      ensures AxisIter(a, 800.0, k).vel == -0.1
    {
      TravelIsProduct(k, a.vel);
      DriftInside(a, 800.0, k);
    }
    TravelIsProduct(200, a.vel);
    DriftInside(a, 800.0, 200);
    TravelIsProduct(1, a.vel);
    DriftInside(a, 800.0, 1);
  }

  // ---------------------------------------------------------------------
  // Initialisation from random draws
  // ---------------------------------------------------------------------

  /** The five random draws consumed by one particle, in the order the record's fields are written. */
  datatype Draws = Draws(radius: real, x: real, y: real, vx: real, vy: real)

  predicate Unit(u: real) { 0.0 <= u < 1.0 }

  predicate ValidDraws(d: Draws)
  {
    Unit(d.radius) && Unit(d.x) && Unit(d.y) && Unit(d.vx) && Unit(d.vy)
  }

  /** A draw scaled by a canvas dimension lands on the canvas, strictly before its far edge. */
  function Scale(u: real, extent: real): (r: real)
    requires Unit(u) && extent >= 0.0
    ensures 0.0 <= r <= extent
    ensures extent > 0.0 ==> r < extent
  {
    assert extent - u * extent == (1.0 - u) * extent;
    assert extent > 0.0 ==> (1.0 - u) * extent > 0.0;
    u * extent
  }

  /** A radius from one draw. */
  function Radius(u: real): (r: real)
    requires Unit(u)
    ensures 0.5 <= r < 2.5
  {
    u * 2.0 + 0.5
  }

  /** A velocity component from one draw. */
  function Velocity(u: real): (v: real)
    requires Unit(u)
    ensures -MAX_SPEED <= v < MAX_SPEED
  {
    (u - 0.5) * 0.25
  }

  /**
    A new particle: radius in [0.5, 2.5), a position on the canvas, and each
    velocity component in [-0.125, 0.125).
  */
  function Spawn(d: Draws, width: real, height: real): (p: Particle)
    requires ValidDraws(d) && width >= 0.0 && height >= 0.0
    ensures 0.5 <= p.radius < 2.5
    ensures 0.0 <= p.x <= width && (width > 0.0 ==> p.x < width)
    ensures 0.0 <= p.y <= height && (height > 0.0 ==> p.y < height)
    ensures -MAX_SPEED <= p.vx < MAX_SPEED && -MAX_SPEED <= p.vy < MAX_SPEED
  {
    Particle(Radius(d.radius), Scale(d.x, width), Scale(d.y, height), Velocity(d.vx), Velocity(d.vy))
  }

  /** The lower velocity bound is reached by a zero draw; the upper one by no draw. */
  lemma VelocityRange(u: real)
    requires Unit(u)
    ensures Velocity(0.0) == -MAX_SPEED
    ensures Velocity(u) != MAX_SPEED
  {
  }

  /** The whole pool, one particle per record of draws, in order. */
  function SpawnAll(draws: seq<Draws>, width: real, height: real): (ps: seq<Particle>)
    requires width >= 0.0 && height >= 0.0
    requires forall i :: 0 <= i < |draws| ==> ValidDraws(draws[i])
    ensures |ps| == |draws|
    ensures forall i :: 0 <= i < |draws| ==> ps[i] == Spawn(draws[i], width, height)
  {
    seq(|draws|, i requires 0 <= i < |draws| => Spawn(draws[i], width, height))
  }

  /**
    Bounded excursion: while the canvas keeps its size, no particle of a freshly
    spawned pool ever goes further than one maximal step beyond the margin, and
    whenever it is beyond the margin it is heading back.
  */
  lemma SpawnedPoolStaysNear(draws: seq<Draws>, width: real, height: real, n: nat)
    requires width >= 0.0 && height >= 0.0
    requires forall i :: 0 <= i < |draws| ==> ValidDraws(draws[i])
    ensures |Ticks(SpawnAll(draws, width, height), width, height, n)| == |draws|
    ensures forall i :: 0 <= i < |draws| ==>
      var p := Ticks(SpawnAll(draws, width, height), width, height, n)[i];
      -MARGIN - MAX_SPEED <= p.x <= width + MARGIN + MAX_SPEED &&
      -MARGIN - MAX_SPEED <= p.y <= height + MARGIN + MAX_SPEED &&
      NearBand(XAxis(p), width) && NearBand(YAxis(p), height)
  {
    var ps := SpawnAll(draws, width, height);
    TicksDecouple(ps, width, height, n);
    forall i | 0 <= i < |draws|
      ensures var p := Ticks(ps, width, height, n)[i];
        -MARGIN - MAX_SPEED <= p.x <= width + MARGIN + MAX_SPEED &&
        -MARGIN - MAX_SPEED <= p.y <= height + MARGIN + MAX_SPEED &&
        NearBand(XAxis(p), width) && NearBand(YAxis(p), height)
    {
      NearBandKept(XAxis(ps[i]), width, n);
      NearBandKept(YAxis(ps[i]), height, n);
    }
  }

  // ---------------------------------------------------------------------
  // The renderer's state: canvas size and the particle array
  // ---------------------------------------------------------------------

  class ParticleField {
    var width: nat
    var height: nat
    const particles: array<Particle>

    ghost predicate Valid()
      reads this
    {
      particles.Length == PARTICLE_COUNT
    }

    /** Size the canvas and create the pool once from the random draws. */
    constructor (w: nat, h: nat, draws: seq<Draws>)
      requires |draws| == PARTICLE_COUNT
      requires forall i :: 0 <= i < |draws| ==> ValidDraws(draws[i])
      ensures Valid()
      ensures width == w && height == h
      ensures fresh(particles)
      ensures particles[..] == SpawnAll(draws, w as real, h as real)
    {
      var ps := SpawnAll(draws, w as real, h as real);
      width, height := w, h;
      particles := new Particle[|ps|](i requires 0 <= i < |ps| => ps[i]);
    }

    /** A viewport resize: the canvas takes the new size; no particle is moved or rescaled. */
    method Resize(w: nat, h: nat)
      requires Valid()
      modifies this
      ensures Valid()
      ensures width == w && height == h
      ensures particles[..] == old(particles[..])
    {
      width, height := w, h;
    }

    /** One animation frame: each particle in the array is replaced by its updated record. */
    method Tick()
      requires Valid()
      modifies particles
      ensures Valid()
      ensures particles[..] == TickAll(old(particles[..]), width as real, height as real)
    {
      var w, h := width as real, height as real;
      var i := 0;
      while i < particles.Length
        invariant 0 <= i <= particles.Length
        invariant forall k :: 0 <= k < i ==> particles[k] == Step(old(particles[k]), w, h)
        invariant forall k :: i <= k < particles.Length ==> particles[k] == old(particles[k])
      {
        particles[i] := Step(particles[i], w, h);
        i := i + 1;
      }
    }

    /** `n` consecutive frames with no resize in between. */
    method Run(n: nat)
      requires Valid()
      modifies particles
      ensures Valid()
      ensures particles[..] == Ticks(old(particles[..]), width as real, height as real, n)
    {
      var k := 0;
      while k < n
        invariant 0 <= k <= n
        invariant particles[..] == Ticks(old(particles[..]), width as real, height as real, k)
      {
        Tick();
        k := k + 1;
      }
    }
  }
}
