/**
 * The animated background (client/src/components/ParticlesBackground.tsx):
 * how many particles a viewport gets, how they are created, and what one
 * animation frame does to them, in place, including which pairs it links.
 *
 * Coordinates and velocities are exact reals. The pointer force and the speed
 * clamp need square roots; they are a function the frame is given (see
 * `PointerForce`), applied exactly when the source applies them.
 */
module Particles {
  /** A particle: position, velocity (pixels per frame), radius and opacity. */
  datatype Particle = Particle(x: real, y: real, vx: real, vy: real, size: real, opacity: real)

  // ---------------------------------------------------------------------------
  // How many particles

  /** At most 80 particles, one per 15000 square pixels of viewport. */
  const MaxParticles: nat := 80
  const AreaPerParticle: nat := 15000

  /** `Math.min(80, Math.floor((width * height) / 15000))`. */
  function ParticleCount(width: nat, height: nat): (n: nat)
    ensures n <= MaxParticles
    ensures n == MaxParticles || n * AreaPerParticle <= width * height < (n + 1) * AreaPerParticle
    ensures n < MaxParticles <==> width * height < MaxParticles * AreaPerParticle
  {
    var perArea := (width * height) / AreaPerParticle;
    if perArea < MaxParticles then perArea else MaxParticles
  }

  /** A larger viewport never gets fewer particles. */
  lemma CountMonotone(w1: nat, h1: nat, w2: nat, h2: nat)
    requires w1 * h1 <= w2 * h2
    ensures ParticleCount(w1, h1) <= ParticleCount(w2, h2)
  {
  }

  /** Examples: a 1000 x 1000 viewport gets 66 particles; one under 15000 square pixels gets none. */
  lemma CountExamples(width: nat, height: nat)
    ensures ParticleCount(1000, 1000) == 66
    ensures width * height < AreaPerParticle ==> ParticleCount(width, height) == 0
  {
  }

  // ---------------------------------------------------------------------------
  // Creating particles

  /** The six `Math.random()` values one particle is made from. */
  datatype Draw = Draw(rx: real, ry: real, rvx: real, rvy: real, rsize: real, ropacity: real)

  /** Every value `Math.random()` returns lies in [0, 1). */
  predicate IsRandom(d: Draw)
  {
    && 0.0 <= d.rx < 1.0 && 0.0 <= d.ry < 1.0 && 0.0 <= d.rvx < 1.0 && 0.0 <= d.rvy < 1.0
    && 0.0 <= d.rsize < 1.0 && 0.0 <= d.ropacity < 1.0
  }

  /** One new particle in a `width` x `height` canvas. */
  function Spawn(width: nat, height: nat, d: Draw): (p: Particle)
    requires IsRandom(d)
    ensures -0.25 <= p.vx < 0.25 && -0.25 <= p.vy < 0.25
    ensures 1.0 <= p.size < 3.0 && 0.2 <= p.opacity < 0.7
  {
    Particle(d.rx * (width as real), d.ry * (height as real), (d.rvx - 0.5) * 0.5, (d.rvy - 0.5) * 0.5, d.rsize * 2.0 + 1.0, d.ropacity * 0.5 + 0.2)
  }

  /** A new particle starts on the canvas. */
  lemma SpawnOnCanvas(width: nat, height: nat, d: Draw)
    requires IsRandom(d)
    ensures var p := Spawn(width, height, d);
      && 0.0 <= p.x && (width > 0 ==> p.x < width as real)
      && 0.0 <= p.y && (height > 0 ==> p.y < height as real)
  {
    var p := Spawn(width, height, d);
    var w, h := width as real, height as real;
    ScaleBelow(d.rx, w);
    ScaleBelow(d.ry, h);
    if width > 0 {
      assert 0.0 < w;
      assert p.x < w;
    }
    if height > 0 {
      assert 0.0 < h;
      assert p.y < h;
    }
  }

  lemma ScaleBelow(r: real, w: real)
    requires 0.0 <= r < 1.0 && 0.0 <= w
    ensures 0.0 <= r * w
    ensures 0.0 < w ==> r * w < w
  {
  }

  /** `initParticles`: a fresh list of exactly `ParticleCount` particles. */
  function InitParticles(width: nat, height: nat, draws: seq<Draw>): (ps: seq<Particle>)
    requires |draws| >= ParticleCount(width, height)
    requires forall d :: d in draws ==> IsRandom(d)
    ensures |ps| == ParticleCount(width, height)
    ensures forall k :: 0 <= k < |ps| ==> ps[k] == Spawn(width, height, draws[k])
  {
    var n := ParticleCount(width, height);
    seq(n, k requires 0 <= k < n => Spawn(width, height, draws[k]))
  }

  // ---------------------------------------------------------------------------
  // One frame, particle by particle

  /** Step the position by the velocity, then flip each velocity component whose coordinate left the canvas. */
  function Move(p: Particle, width: real, height: real): Particle
  {
    var x := p.x + p.vx;
    var y := p.y + p.vy;
    p.(x := x, y := y,
       vx := if x < 0.0 || x > width then -p.vx else p.vx,
       vy := if y < 0.0 || y > height then -p.vy else p.vy)
  }

  function Sq(r: real): real
  {
    r * r
  }

  /** Distances are compared with 150 on their squares, which is exact since both sides are non-negative. */
  const LinkRange: real := 150.0

  /** `mouseDistance < 150`. */
  predicate NearPointer(p: Particle, mouseX: real, mouseY: real)
  {
    Sq(p.x - mouseX) + Sq(p.y - mouseY) < Sq(LinkRange)
  }

  /**
   * The velocity after the pointer force and the speed clamp, given the moved
   * particle and the pointer position; the frame applies it only near the pointer.
   */
  type PointerForce = (Particle, real, real) -> (real, real)

  function Interact(p: Particle, mouseX: real, mouseY: real, force: PointerForce): Particle
  {
    if NearPointer(p, mouseX, mouseY) then
      var v := force(p, mouseX, mouseY);
      p.(vx := v.0, vy := v.1)
    else p
  }

  /** Damping: both velocity components times 0.99. */
  function Damp(p: Particle): Particle
  {
    p.(vx := p.vx * 0.99, vy := p.vy * 0.99)
  }

  /** Everything a frame does to one particle. */
  function Advance(p: Particle, width: real, height: real, mouseX: real, mouseY: real, force: PointerForce): Particle
  {
    Damp(Interact(Move(p, width, height), mouseX, mouseY, force))
  }

  /**
   * The boundary rule: the position always moves by the old velocity (it is
   * never clamped), and a velocity component is negated, and then damped,
   * exactly when its coordinate ends outside the canvas; away from the pointer
   * nothing else touches the velocity.
   */
  lemma AdvanceRule(p: Particle, width: real, height: real, mouseX: real, mouseY: real, force: PointerForce)
    requires !NearPointer(Move(p, width, height), mouseX, mouseY)
    ensures var q := Advance(p, width, height, mouseX, mouseY, force);
      && q.x == p.x + p.vx && q.y == p.y + p.vy
      && q.vx == (if q.x < 0.0 || q.x > width then -0.99 * p.vx else 0.99 * p.vx)
      && q.vy == (if q.y < 0.0 || q.y > height then -0.99 * p.vy else 0.99 * p.vy)
      && q.size == p.size && q.opacity == p.opacity
  {
  }

  /** Away from the pointer, every frame shrinks the squared speed by the factor 0.99 * 0.99. */
  lemma SpeedDecays(p: Particle, width: real, height: real, mouseX: real, mouseY: real, force: PointerForce)
    requires !NearPointer(Move(p, width, height), mouseX, mouseY)
    ensures var q := Advance(p, width, height, mouseX, mouseY, force);
      q.vx * q.vx + q.vy * q.vy == 0.9801 * (p.vx * p.vx + p.vy * p.vy)
  {
    var q := Advance(p, width, height, mouseX, mouseY, force);
    assert q.vx * q.vx == 0.9801 * (p.vx * p.vx);
    assert q.vy * q.vy == 0.9801 * (p.vy * p.vy);
  }

  /** `n` frames of one particle on its own, the pointer staying put. */
  function Frames(p: Particle, n: nat, width: real, height: real, mouseX: real, mouseY: real, force: PointerForce): Particle
    decreases n
  {
    if n == 0 then p else Frames(Advance(p, width, height, mouseX, mouseY, force), n - 1, width, height, mouseX, mouseY, force)
  }

  /**
   * Reflection without clamping can leave a particle outside the canvas for
   * many frames in a row: close to the left edge and moving left, its
   * velocity is flipped back and forth while it stays at x < 0.
   */
  lemma StaysOutside(force: PointerForce)
    ensures var p := Particle(0.001, 50.0, -0.5, 0.0, 1.0, 0.5);
      forall n :: 1 <= n <= 4 ==> Frames(p, n, 100.0, 100.0, 1000.0, 1000.0, force).x < 0.0
  {
    var p := Particle(0.001, 50.0, -0.5, 0.0, 1.0, 0.5);
    var p1 := Advance(p, 100.0, 100.0, 1000.0, 1000.0, force);
    assert p1 == Particle(-0.499, 50.0, 0.495, 0.0, 1.0, 0.5);
    var p2 := Advance(p1, 100.0, 100.0, 1000.0, 1000.0, force);
    assert p2 == Particle(-0.004, 50.0, -0.49005, 0.0, 1.0, 0.5);
    var p3 := Advance(p2, 100.0, 100.0, 1000.0, 1000.0, force);
    assert p3 == Particle(-0.49405, 50.0, 0.4851495, 0.0, 1.0, 0.5);
    var p4 := Advance(p3, 100.0, 100.0, 1000.0, 1000.0, force);
    assert p4.x == -0.0089005;
    assert Frames(p, 1, 100.0, 100.0, 1000.0, 1000.0, force) == p1;
    assert Frames(p, 2, 100.0, 100.0, 1000.0, 1000.0, force) == p2;
    assert Frames(p, 3, 100.0, 100.0, 1000.0, 1000.0, force) == p3;
    assert Frames(p, 4, 100.0, 100.0, 1000.0, 1000.0, force) == p4;
  }

  // ---------------------------------------------------------------------------
  // Which links a frame draws

  /** A line from particle `i` (already moved this frame) to particle `j` (not yet moved). */
  datatype Link = Link(i: nat, j: nat, fromX: real, fromY: real, toX: real, toY: real)

  /** `distance < 150` between two particles. */
  predicate Close(a: Particle, b: Particle)
  {
    Sq(a.x - b.x) + Sq(a.y - b.y) < Sq(LinkRange)
  }

  /** Whether the frame links `i` and `j`, judged on the particles as they were before it. */
  predicate Linked(ps: seq<Particle>, width: real, height: real, i: nat, j: nat)
    requires i < |ps| && j < |ps|
  {
    Close(Move(ps[i], width, height), ps[j])
  }

  function LinkOf(ps: seq<Particle>, width: real, height: real, i: nat, j: nat): Link
    requires i < |ps| && j < |ps|
  {
    var from := Move(ps[i], width, height);
    Link(i, j, from.x, from.y, ps[j].x, ps[j].y)
  }

  /** The links of `(i, j')` for `j' < j`, as the inner loop finds them. */
  function RowLinks(ps: seq<Particle>, width: real, height: real, i: nat, j: nat): seq<Link>
    requires i < |ps| && j <= |ps|
    decreases j
  {
    if j == 0 then []
    else
      RowLinks(ps, width, height, i, j - 1)
      + if i < j - 1 && Linked(ps, width, height, i, j - 1) then [LinkOf(ps, width, height, i, j - 1)] else []
  }

  /** The links the first `i` outer iterations find. */
  function LinksBefore(ps: seq<Particle>, width: real, height: real, i: nat): seq<Link>
    requires i <= |ps|
    decreases i
  {
    if i == 0 then [] else LinksBefore(ps, width, height, i - 1) + RowLinks(ps, width, height, i - 1, |ps|)
  }

  /** The links one frame draws over particles `ps`. */
  function FrameLinks(ps: seq<Particle>, width: real, height: real): seq<Link>
  {
    LinksBefore(ps, width, height, |ps|)
  }

  /** `l` is the line the frame would draw for its own pair, and that pair is close. */
  predicate IsLink(ps: seq<Particle>, width: real, height: real, l: Link)
  {
    l.i < |ps| && l.j < |ps| && Linked(ps, width, height, l.i, l.j) && l == LinkOf(ps, width, height, l.i, l.j)
  }

  /** Lexicographic order on the pairs of two links. */
  predicate Before(l1: Link, l2: Link)
  {
    l1.i < l2.i || (l1.i == l2.i && l1.j < l2.j)
  }

  predicate Increasing(links: seq<Link>)
  {
    forall k1, k2 :: 0 <= k1 < k2 < |links| ==> Before(links[k1], links[k2])
  }

  /** Every link in `r` starts at `i` and ends after `i` and before `j`. */
  predicate FromTo(r: seq<Link>, i: nat, j: nat)
  {
    forall k :: 0 <= k < |r| ==> r[k].i == i && i < r[k].j < j
  }

  /** Every link in `r` is the line for its own pair, and that pair is close. */
  predicate AllLinks(ps: seq<Particle>, width: real, height: real, r: seq<Link>)
  {
    forall k :: 0 <= k < |r| ==> IsLink(ps, width, height, r[k])
  }

  lemma {:induction false} RowLinksSound(ps: seq<Particle>, width: real, height: real, i: nat, j: nat)
    requires i < |ps| && j <= |ps|
    ensures AllLinks(ps, width, height, RowLinks(ps, width, height, i, j))
    decreases j
  {
    if j > 0 {
      RowLinksSound(ps, width, height, i, j - 1);
    }
  }

  lemma {:induction false} RowLinksComplete(ps: seq<Particle>, width: real, height: real, i: nat, j: nat, b: nat)
    requires i < b < j <= |ps|
    requires Linked(ps, width, height, i, b)
    ensures LinkOf(ps, width, height, i, b) in RowLinks(ps, width, height, i, j)
    decreases j
  {
    if b < j - 1 {
      RowLinksComplete(ps, width, height, i, j - 1, b);
    }
  }

  /** The inner loop's links for `i` all start at `i`, end before `j`, and come in increasing order. */
  lemma {:induction false} RowLinksOrdered(ps: seq<Particle>, width: real, height: real, i: nat, j: nat)
    requires i < |ps| && j <= |ps|
    ensures FromTo(RowLinks(ps, width, height, i, j), i, j)
    ensures Increasing(RowLinks(ps, width, height, i, j))
    decreases j
  {
    if j > 0 {
      RowLinksOrdered(ps, width, height, i, j - 1);
      var r := RowLinks(ps, width, height, i, j - 1);
      assert forall k :: 0 <= k < |r| ==> r[k].j < j - 1;
    }
  }

  lemma {:induction false} RowLinksCount(ps: seq<Particle>, width: real, height: real, i: nat, j: nat)
    requires i < |ps| && j <= |ps|
    ensures |RowLinks(ps, width, height, i, j)| <= if j > i then j - i - 1 else 0
    decreases j
  {
    if j > 0 {
      RowLinksCount(ps, width, height, i, j - 1);
    }
  }

  lemma {:induction false} LinksBeforeSound(ps: seq<Particle>, width: real, height: real, i: nat)
    requires i <= |ps|
    ensures AllLinks(ps, width, height, LinksBefore(ps, width, height, i))
    decreases i
  {
    if i > 0 {
      var a, b := LinksBefore(ps, width, height, i - 1), RowLinks(ps, width, height, i - 1, |ps|);
      LinksBeforeSound(ps, width, height, i - 1);
      RowLinksSound(ps, width, height, i - 1, |ps|);
      assert forall k :: |a| <= k < |a| + |b| ==> (a + b)[k] == b[k - |a|];
    }
  }

  lemma {:induction false} LinksBeforeComplete(ps: seq<Particle>, width: real, height: real, i: nat, x: nat, y: nat)
    requires i <= |ps| && x < i && x < y < |ps|
    requires Linked(ps, width, height, x, y)
    ensures LinkOf(ps, width, height, x, y) in LinksBefore(ps, width, height, i)
    decreases i
  {
    if x < i - 1 {
      LinksBeforeComplete(ps, width, height, i - 1, x, y);
    } else {
      RowLinksComplete(ps, width, height, i - 1, |ps|, y);
    }
  }

  lemma {:induction false} LinksBeforeOrdered(ps: seq<Particle>, width: real, height: real, i: nat)
    requires i <= |ps|
    ensures forall k :: 0 <= k < |LinksBefore(ps, width, height, i)| ==>
              LinksBefore(ps, width, height, i)[k].i < i && LinksBefore(ps, width, height, i)[k].i < LinksBefore(ps, width, height, i)[k].j
    ensures Increasing(LinksBefore(ps, width, height, i))
    decreases i
  {
    if i > 0 {
      LinksBeforeOrdered(ps, width, height, i - 1);
      RowLinksOrdered(ps, width, height, i - 1, |ps|);
      var a, b := LinksBefore(ps, width, height, i - 1), RowLinks(ps, width, height, i - 1, |ps|);
      var r := a + b;
      forall k1, k2 | 0 <= k1 < k2 < |r|
        ensures Before(r[k1], r[k2])
      {
        if k2 < |a| {
          assert r[k1] == a[k1] && r[k2] == a[k2];
        } else if k1 < |a| {
          assert r[k1] == a[k1] && r[k2] == b[k2 - |a|];
        } else {
          assert r[k1] == b[k1 - |a|] && r[k2] == b[k2 - |a|];
        }
      }
    }
  }

  lemma {:induction false} LinksBeforeCount(ps: seq<Particle>, width: real, height: real, i: nat)
    requires i <= |ps|
    ensures 2 * |LinksBefore(ps, width, height, i)| <= i * (2 * |ps| - i - 1)
    decreases i
  {
    if i > 0 {
      LinksBeforeCount(ps, width, height, i - 1);
      RowLinksCount(ps, width, height, i - 1, |ps|);
      var a, b := |LinksBefore(ps, width, height, i - 1)|, |RowLinks(ps, width, height, i - 1, |ps|)|;
      assert |LinksBefore(ps, width, height, i)| == a + b;
      CountStep(|ps|, i, a, b);
    }
  }

  lemma CountStep(n: int, i: int, a: int, b: int)
    requires 1 <= i <= n
    requires 2 * a <= (i - 1) * (2 * n - (i - 1) - 1) && b <= n - i
    ensures 2 * (a + b) <= i * (2 * n - i - 1)
  {
    var m := 2 * n - i;
    assert (i - 1) * m == i * m - m;
    assert i * (m - 1) == i * m - i;
  }

  /** A frame draws the line for `(i, j)` exactly when `i < j` and the pair is close, and draws no other line. */
  lemma FrameLinksExactly(ps: seq<Particle>, width: real, height: real)
    ensures forall l :: l in FrameLinks(ps, width, height) ==> l.i < l.j && IsLink(ps, width, height, l)
    ensures forall i: nat, j: nat :: i < j < |ps| && Linked(ps, width, height, i, j) ==>
              LinkOf(ps, width, height, i, j) in FrameLinks(ps, width, height)
  {
    LinksBeforeSound(ps, width, height, |ps|);
    LinksBeforeOrdered(ps, width, height, |ps|);
    forall i: nat, j: nat | i < j < |ps| && Linked(ps, width, height, i, j)
      ensures LinkOf(ps, width, height, i, j) in FrameLinks(ps, width, height)
    {
      LinksBeforeComplete(ps, width, height, |ps|, i, j);
    }
  }

  /**
   * The lines come in increasing order of their pairs, so no pair is drawn
   * twice, and there are at most n * (n - 1) / 2 of them.
   */
  lemma FrameLinksOrdered(ps: seq<Particle>, width: real, height: real)
    ensures Increasing(FrameLinks(ps, width, height))
    ensures 2 * |FrameLinks(ps, width, height)| <= |ps| * (|ps| - 1)
  {
    LinksBeforeOrdered(ps, width, height, |ps|);
    LinksBeforeCount(ps, width, height, |ps|);
  }

  /** Everything a frame does to the particles. */
  function AdvanceAll(ps: seq<Particle>, width: real, height: real, mouseX: real, mouseY: real, force: PointerForce): (r: seq<Particle>)
    ensures |r| == |ps|
  {
    seq(|ps|, k requires 0 <= k < |ps| => Advance(ps[k], width, height, mouseX, mouseY, force))
  }

  // ---------------------------------------------------------------------------
  // The component's state

  /** The canvas size, the particle array and the last pointer position. */
  class ParticleField {
    var particles: array<Particle>
    var width: nat
    var height: nat
    var mouseX: real
    var mouseY: real

    /** The first `handleResize()`; the pointer starts at (0, 0). */
    constructor (innerWidth: nat, innerHeight: nat, draws: seq<Draw>)
      requires |draws| >= ParticleCount(innerWidth, innerHeight)
      requires forall d :: d in draws ==> IsRandom(d)
      ensures width == innerWidth && height == innerHeight
      ensures fresh(particles) && particles[..] == InitParticles(innerWidth, innerHeight, draws)
      ensures mouseX == 0.0 && mouseY == 0.0
    {
      var ps := InitParticles(innerWidth, innerHeight, draws);
      width, height := innerWidth, innerHeight;
      particles := new Particle[|ps|](k requires 0 <= k < |ps| => ps[k]);
      mouseX, mouseY := 0.0, 0.0;
    }

    /** `handleResize`: the canvas takes the window's size and gets a fresh set of particles. */
    method Resize(innerWidth: nat, innerHeight: nat, draws: seq<Draw>)
      requires |draws| >= ParticleCount(innerWidth, innerHeight)
      requires forall d :: d in draws ==> IsRandom(d)
      modifies this
      ensures width == innerWidth && height == innerHeight
      ensures fresh(particles) && particles[..] == InitParticles(innerWidth, innerHeight, draws)
      ensures mouseX == old(mouseX) && mouseY == old(mouseY)
    {
      var ps := InitParticles(innerWidth, innerHeight, draws);
      width, height := innerWidth, innerHeight;
      particles := new Particle[|ps|](k requires 0 <= k < |ps| => ps[k]);
    }

    /** `handleMouseMove`: remember the pointer position. */
    method MouseMove(clientX: real, clientY: real)
      modifies this
      ensures mouseX == clientX && mouseY == clientY
      ensures particles == old(particles) && width == old(width) && height == old(height)
    {
      mouseX, mouseY := clientX, clientY;
    }

    /** Step a particle by its velocity and flip each component whose coordinate left the canvas. */
    method Bounce(particle: Particle) returns (p: Particle)
      ensures p == Move(particle, width as real, height as real)
    {
      p := particle.(x := particle.x + particle.vx, y := particle.y + particle.vy);
      if p.x < 0.0 || p.x > width as real {
        p := p.(vx := -p.vx);
      }
      if p.y < 0.0 || p.y > height as real {
        p := p.(vy := -p.vy);
      }
    }

    /** Apply the pointer force when the particle is near the pointer, then damp. */
    method Push(moved: Particle, force: PointerForce) returns (p: Particle)
      ensures p == Damp(Interact(moved, mouseX, mouseY, force))
    {
      p := moved;
      if NearPointer(p, mouseX, mouseY) {
        var v := force(p, mouseX, mouseY);
        p := p.(vx := v.0, vy := v.1);
      }
      p := p.(vx := p.vx * 0.99, vy := p.vy * 0.99);
    }

    /**
     * The inner loop of a frame for particle `i`, already moved to `moved`:
     * append a link to every later particle that is close to it.
     */
    method LinkRow(i: nat, moved: Particle, ghost ps: seq<Particle>, linksBefore: seq<Link>) returns (links: seq<Link>)
      requires i < particles.Length == |ps|
      requires forall k :: i < k < |ps| ==> particles[k] == ps[k]
      requires moved == Move(ps[i], width as real, height as real)
      requires linksBefore == LinksBefore(ps, width as real, height as real, i)
      ensures links == LinksBefore(ps, width as real, height as real, i + 1)
    {
      var n := particles.Length;
      ghost var w, h := width as real, height as real;
      links := linksBefore;
      var j := 0;
      while j < n
        invariant 0 <= j <= n
        invariant links == linksBefore + RowLinks(ps, w, h, i, j)
      {
        if i < j {
          var other := particles[j];
          if Close(moved, other) {
            links := links + [Link(i, j, moved.x, moved.y, other.x, other.y)];
          }
        }
        j := j + 1;
      }
    }

    /**
     * `drawParticles` without the drawing: every particle in turn is moved,
     * linked to each later particle that is close, pushed by the pointer and
     * damped. Returns the lines drawn between particles.
     */
    method Frame(force: PointerForce) returns (links: seq<Link>)
      modifies particles
      ensures particles[..] == AdvanceAll(old(particles[..]), width as real, height as real, mouseX, mouseY, force)
      ensures links == FrameLinks(old(particles[..]), width as real, height as real)
    {
      ghost var ps := particles[..];
      var n := particles.Length;
      var w, h := width as real, height as real;
      links := [];
      var i := 0;
      while i < n
        invariant 0 <= i <= n
        invariant forall k :: 0 <= k < i ==> particles[k] == Advance(ps[k], w, h, mouseX, mouseY, force)
        invariant forall k :: i <= k < n ==> particles[k] == ps[k]
        invariant links == LinksBefore(ps, w, h, i)
      {
        var p := Bounce(particles[i]);
        assert forall k :: i < k < n ==> particles[k] == ps[k];
        links := LinkRow(i, p, ps, links);
        p := Push(p, force);
        particles[i] := p;
        i := i + 1;
      }
      assert particles[..] == AdvanceAll(ps, w, h, mouseX, mouseY, force);
    }
  }
}
