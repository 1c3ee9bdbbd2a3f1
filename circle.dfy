/**
 The per-particle half of the simulation, shared by atomic.js and main.js: the
 state of one `Circle`, its pure queries (distance, speed, contact, link
 segment, link alpha) and the two per-particle state updates that the tick
 loop applies in place (pointer effect, integration with wall reflection).

 Both files define `Circle` with nearly the same code. The constants come
 from an options object in atomic.js and from globals in main.js, so here
 they are parameters, gathered in `Params`. The two places where the code
 itself differs become parameters too: `moving` (main.js repels without a
 movement test, so it passes `true`) and `vlimit`, the overspeed threshold
 (`vmax` in atomic.js, `2 * vmax` in main.js).
 */
module Circle {

  datatype Option<T> = None | Some(value: T)

  /** The four `Math` functions the source calls. Their exact floating-point
      behaviour is not modelled: they are taken as given functions, and
      `SqrtLaw`, `UnitLaw` and `HeadingLaw` state the only facts about them that the geometric lemmas
      use. The discrete control logic needs none of them. */
  datatype Math = Math(sqrt: real -> real, atan2: (real, real) -> real, cos: real -> real, sin: real -> real)

  // `Math.sqrt`, `Math.cos`, `Math.sin` and `Math.atan2`, applied.
  function Sqrt(mth: Math, x: real): real { mth.sqrt(x) }
  function Cos(mth: Math, t: real): real { mth.cos(t) }
  function Sin(mth: Math, t: real): real { mth.sin(t) }
  function Atan2(mth: Math, y: real, x: real): real { mth.atan2(y, x) }

  // Each law is a quantifier over a named instance (`SqrtAt`, `UnitAt`,
  // `HeadingAt`), so a proof obtains an instance only by naming it.

  /** `Math.sqrt(x)` of a non-negative `x` is non-negative and squares back to `x`. */
  ghost predicate SqrtAt(mth: Math, x: real) {
    0.0 <= x ==> 0.0 <= Sqrt(mth, x) && Sqrt(mth, x) * Sqrt(mth, x) == x
  }

  ghost predicate SqrtLaw(mth: Math) {
    forall x: real :: SqrtAt(mth, x)
  }

  /** `Math.cos(t)` and `Math.sin(t)` form a unit vector. */
  ghost predicate UnitAt(mth: Math, t: real) {
    Cos(mth, t) * Cos(mth, t) + Sin(mth, t) * Sin(mth, t) == 1.0
  }

  ghost predicate UnitLaw(mth: Math) {
    forall t: real :: UnitAt(mth, t)
  }

  /** `Math.atan2(y, x)` is the heading of a non-zero vector `(x, y)`. */
  ghost predicate HeadingAt(mth: Math, y: real, x: real) {
    0.0 < x * x + y * y ==>
      && Sqrt(mth, x * x + y * y) * Cos(mth, Atan2(mth, y, x)) == x
      && Sqrt(mth, x * x + y * y) * Sin(mth, Atan2(mth, y, x)) == y
  }

  ghost predicate HeadingLaw(mth: Math) {
    forall y: real, x: real :: HeadingAt(mth, y, x)
  }

  /** All three laws: what the geometric lemmas may assume of `Math`. */
  ghost predicate Lawful(mth: Math) {
    SqrtLaw(mth) && UnitLaw(mth) && HeadingLaw(mth)
  }

  /** An RGBA colour, as the `[r, g, b, a]` arrays of the source. */
  datatype Rgba = Rgba(red: real, green: real, blue: real, alpha: real)

  /** The constants a `Circle` reads: `this._options.*` in atomic.js, globals in main.js. */
  datatype Params = Params(
    r: real, vmax: real, armlen: real, mouser: real, mousev: real, clickr: real,
    amax: real, jerk: real, xmax: real, ymax: real, atomColor: Rgba, armColor: Rgba)

  /** What the model needs of the constants: a positive radius and link length
      (both are divisors) and a non-negative burst acceleration and jerk. */
  predicate ParamsOk(prm: Params) {
    0.0 < prm.r && 0.0 < prm.armlen && 0.0 <= prm.amax && 0.0 <= prm.jerk
  }

  /** One atom: `_x`, `_y`, `_xdot`, `_ydot`, `_a`, `_isAcc`. The radius is
      shared by all atoms; `_hits` and `_arms` live beside the particle array. */
  datatype Particle = Particle(x: real, y: real, xdot: real, ydot: real, a: real, isAcc: bool)

  /** The burst state machine's invariant: a cruising atom has no
      acceleration, and the acceleration never exceeds `amax`. */
  predicate BurstOk(p: Particle, amax: real) {
    (!p.isAcc ==> p.a == 0.0) && p.a <= amax
  }

  /** `new Circle(x, y, xdot, ydot)`: a new atom starts cruising. */
  function Spawn(x: real, y: real, xdot: real, ydot: real): (p: Particle)
    ensures p.x == x && p.y == y && p.xdot == xdot && p.ydot == ydot
    ensures !p.isAcc && p.a == 0.0
    ensures forall amax: real :: 0.0 <= amax ==> BurstOk(p, amax)
  {
    Particle(x, y, xdot, ydot, 0.0, false)
  }

  function Abs(v: real): real {
    if v < 0.0 then -v else v
  }

  // ---------------------------------------------------------------- queries

  /** `Math.sqrt(dx * dx + dy * dy)`, the length of a vector. */
  function Norm(mth: Math, dx: real, dy: real): real {
    Sqrt(mth, dx * dx + dy * dy)
  }

  /** `distance(other)`: Euclidean distance between the two centres. */
  function Distance(mth: Math, p: Particle, q: Particle): real {
    Norm(mth, p.x - q.x, p.y - q.y)
  }

  /** `vmag()`: the speed. */
  function Vmag(mth: Math, p: Particle): real {
    Norm(mth, p.xdot, p.ydot)
  }

  /** The distance from `p` to a point `(mx, my)`, as `mouseEffect` computes it. */
  function PointerDistance(mth: Math, p: Particle, mx: real, my: real): real {
    Norm(mth, mx - p.x, my - p.y)
  }

  // The geometric lemmas below keep every argument of `sqrt`, `cos` and
  // `sin` in one syntactic form: arithmetic identities are proved in small
  // lemmas that know nothing of `Math`, and are then used only to rewrite
  // equals for equals (`SqrtCongruence`, `NormCongruence`).

  lemma SqrtCongruence(mth: Math, x: real, y: real)
    requires x == y
    ensures Sqrt(mth, x) == Sqrt(mth, y)
  {
  }

  lemma NormCongruence(mth: Math, dx: real, dy: real, ex: real, ey: real)
    requires dx == ex && dy == ey
    ensures Norm(mth, dx, dy) == Norm(mth, ex, ey)
  {
  }

  /** Lengths, hence distances and speeds, are never negative. */
  lemma NormNonNegative(mth: Math, dx: real, dy: real)
    requires SqrtLaw(mth)
    ensures 0.0 <= Norm(mth, dx, dy)
  {
    assert SqrtAt(mth, dx * dx + dy * dy);
    assert 0.0 <= dx * dx && 0.0 <= dy * dy;
  }

  lemma NormNeg(mth: Math, dx: real, dy: real)
    ensures Norm(mth, -dx, -dy) == Norm(mth, dx, dy)
  {
    assert -dx * -dx == dx * dx && -dy * -dy == dy * dy;
    SqrtCongruence(mth, -dx * -dx + -dy * -dy, dx * dx + dy * dy);
  }

  /** Distance does not depend on which atom asks: the fact both
      de-duplication schemes rest on. */
  lemma DistanceSymmetric(mth: Math, p: Particle, q: Particle)
    ensures Distance(mth, p, q) == Distance(mth, q, p)
  {
    NormNeg(mth, p.x - q.x, p.y - q.y);
    NormCongruence(mth, -(p.x - q.x), -(p.y - q.y), q.x - p.x, q.y - p.y);
  }

  /** Distance is non-negative, symmetric, and zero exactly between atoms
      at the same position. */
  lemma DistanceLaws(mth: Math, p: Particle, q: Particle)
    requires SqrtLaw(mth)
    ensures 0.0 <= Distance(mth, p, q)
    ensures Distance(mth, p, q) == Distance(mth, q, p)
    ensures Distance(mth, p, q) == 0.0 <==> p.x == q.x && p.y == q.y
  {
    NormNonNegative(mth, p.x - q.x, p.y - q.y);
    DistanceSymmetric(mth, p, q);
    NormZero(mth, p.x - q.x, p.y - q.y);
  }

  /** Squaring is strictly increasing on the non-negative reals. */
  lemma SquareMono(a: real, b: real)
    requires 0.0 <= a < b
    ensures a * a < b * b
  {
    var aa, ab, bb := a * a, a * b, b * b;
    assert aa <= ab;
    assert ab < bb;
  }

  /** Only zero squares to zero. */
  lemma SquareZero(v: real)
    ensures v * v == 0.0 ==> v == 0.0
  {
    if v != 0.0 {
      var w := Abs(v);
      SquareMono(0.0, w);
      assert w * w == v * v;
    }
  }

  /** `Math.sqrt(x)` is the non-negative `y` with `y * y == x`. */
  lemma SqrtUnique(mth: Math, x: real, y: real)
    requires SqrtLaw(mth) && 0.0 <= y && y * y == x
    ensures Sqrt(mth, x) == y
  {
    assert SqrtAt(mth, x);
    var s := Sqrt(mth, x);
    assert 0.0 <= s && s * s == x;
    if s < y {
      SquareMono(s, y);
    } else if y < s {
      SquareMono(y, s);
    }
  }

  /** A vector has length zero only if it is the zero vector. */
  lemma NormZero(mth: Math, dx: real, dy: real)
    requires SqrtLaw(mth)
    ensures Norm(mth, dx, dy) == 0.0 <==> dx == 0.0 && dy == 0.0
  {
    var dd, ee := dx * dx, dy * dy;
    assert 0.0 <= dd && 0.0 <= ee;
    assert SqrtAt(mth, dx * dx + dy * dy);
    var s := Sqrt(mth, dd + ee);
    assert s * s == dd + ee;
    if s == 0.0 {
      assert dd + ee == 0.0;
      SquareZero(dx);
      SquareZero(dy);
    }
    if dx == 0.0 && dy == 0.0 {
      SqrtUnique(mth, dx * dx + dy * dy, 0.0);
    }
  }

  /** The speed is non-negative, squares back to the sum of the squared
      components, and is zero exactly for an atom at rest. */
  lemma VmagLaws(mth: Math, p: Particle)
    requires SqrtLaw(mth)
    ensures 0.0 <= Vmag(mth, p)
    ensures Vmag(mth, p) * Vmag(mth, p) == p.xdot * p.xdot + p.ydot * p.ydot
    ensures Vmag(mth, p) == 0.0 <==> p.xdot == 0.0 && p.ydot == 0.0
  {
    NormNonNegative(mth, p.xdot, p.ydot);
    NormZero(mth, p.xdot, p.ydot);
    NormSquared(mth, p.xdot, p.ydot);
  }

  /** A length squares back to the sum of the squared components. */
  lemma NormSquared(mth: Math, dx: real, dy: real)
    requires SqrtLaw(mth)
    ensures Norm(mth, dx, dy) * Norm(mth, dx, dy) == dx * dx + dy * dy
  {
    assert SqrtAt(mth, dx * dx + dy * dy);
    assert 0.0 <= dx * dx && 0.0 <= dy * dy;
  }

  lemma AbsSquare(k: real)
    ensures Abs(k) * Abs(k) == k * k
  {
  }

  lemma ScaledUnitSquares(k: real, co: real, si: real)
    requires co * co + si * si == 1.0
    ensures k * co * (k * co) + k * si * (k * si) == Abs(k) * Abs(k)
  {
    AbsSquare(k);
    var kk, cc, ss := k * k, co * co, si * si;
    assert k * co * (k * co) + k * si * (k * si) == kk * cc + kk * ss;
    var u := cc + ss;
    assert kk * cc + kk * ss == kk * u;
    assert kk * u == kk * 1.0;
  }

  /** `k` times the unit vector of any angle has length `|k|`. */
  lemma NormOfScaledUnit(mth: Math, k: real, t: real)
    requires SqrtLaw(mth) && UnitLaw(mth)
    ensures Norm(mth, k * Cos(mth, t), k * Sin(mth, t)) == Abs(k)
  {
    assert UnitAt(mth, t);
    ScaledUnitSquares(k, Cos(mth, t), Sin(mth, t));
    SqrtUnique(mth, k * Cos(mth, t) * (k * Cos(mth, t)) + k * Sin(mth, t) * (k * Sin(mth, t)), Abs(k));
  }

  /** For a non-zero vector, `atan2` gives its heading: length times
      `(cos, sin)` of the angle is the vector itself. */
  lemma Heading(mth: Math, dx: real, dy: real)
    requires SqrtLaw(mth) && HeadingLaw(mth) && Norm(mth, dx, dy) != 0.0
    ensures Norm(mth, dx, dy) * Cos(mth, Atan2(mth, dy, dx)) == dx
    ensures Norm(mth, dx, dy) * Sin(mth, Atan2(mth, dy, dx)) == dy
  {
    NormZero(mth, dx, dy);
    PositiveSquares(dx, dy);
    assert HeadingAt(mth, dy, dx);
  }

  lemma PositiveSquares(dx: real, dy: real)
    ensures dx != 0.0 || dy != 0.0 ==> 0.0 < dx * dx + dy * dy
  {
    if dx != 0.0 {
      SquareMono(0.0, Abs(dx));
      AbsSquare(dx);
    } else if dy != 0.0 {
      SquareMono(0.0, Abs(dy));
      AbsSquare(dy);
    }
  }

  /** Multiplying both sides of `d * c == v` by `k`. */
  lemma ScaleEquation(k: real, c: real, d: real, v: real)
    requires d * c == v
    ensures k * c * d == k * v
  {
    var dc := d * c;
    assert k * c * d == k * dc;
  }

  /** What `intersection(other)` returns: the contact point relative to this
      centre and the partner's velocity. */
  datatype Contact = Contact(xint: real, yint: real, xdot: real, ydot: real)

  /** `intersection(other)`: a contact iff the centres are at most `2r` apart. */
  function Intersection(mth: Math, r: real, p: Particle, q: Particle): (c: Option<Contact>)
    ensures c.Some? <==> Distance(mth, p, q) <= 2.0 * r
    ensures c.Some? ==> c.value.xdot == q.xdot && c.value.ydot == q.ydot
  {
    if Distance(mth, p, q) <= 2.0 * r then
      var theta := Atan2(mth, q.y - p.y, q.x - p.x);
      Some(Contact(r * Cos(mth, theta), r * Sin(mth, theta), q.xdot, q.ydot))
    else
      None
  }

  /** `k` along the heading from `p` to `q` is `k / d` times the offset `q - p`. */
  lemma TowardPartner(mth: Math, k: real, p: Particle, q: Particle)
    requires SqrtLaw(mth) && HeadingLaw(mth) && Distance(mth, p, q) != 0.0
    ensures k * Cos(mth, Atan2(mth, q.y - p.y, q.x - p.x)) * Distance(mth, p, q) == k * (q.x - p.x)
    ensures k * Sin(mth, Atan2(mth, q.y - p.y, q.x - p.x)) * Distance(mth, p, q) == k * (q.y - p.y)
  {
    DistanceSymmetric(mth, p, q);
    Heading(mth, q.x - p.x, q.y - p.y);
    ScaleEquation(k, Cos(mth, Atan2(mth, q.y - p.y, q.x - p.x)), Distance(mth, p, q), q.x - p.x);
    ScaleEquation(k, Sin(mth, Atan2(mth, q.y - p.y, q.x - p.x)), Distance(mth, p, q), q.y - p.y);
  }

  /** The contact offset lies on this atom's rim. */
  lemma ContactOnRim(mth: Math, r: real, p: Particle, q: Particle)
    requires SqrtLaw(mth) && UnitLaw(mth) && 0.0 <= r && Distance(mth, p, q) <= 2.0 * r
    ensures var c := Intersection(mth, r, p, q).value;
      Norm(mth, c.xint, c.yint) == r
  {
    var t := Atan2(mth, q.y - p.y, q.x - p.x);
    var c := Intersection(mth, r, p, q).value;
    ContactOffset(mth, r, p, q);
    assert c.xint == r * Cos(mth, t) && c.yint == r * Sin(mth, t);
    NormOfScaledUnit(mth, r, t);
    NormCongruence(mth, c.xint, c.yint, r * Cos(mth, t), r * Sin(mth, t));
  }

  /** The contact offset is `r` along the heading from `p` to `q`. */
  lemma ContactOffset(mth: Math, r: real, p: Particle, q: Particle)
    requires Distance(mth, p, q) <= 2.0 * r
    ensures Intersection(mth, r, p, q).value.xint == r * Cos(mth, Atan2(mth, q.y - p.y, q.x - p.x))
    ensures Intersection(mth, r, p, q).value.yint == r * Sin(mth, Atan2(mth, q.y - p.y, q.x - p.x))
  {
  }

  /** For atoms at different positions, the contact offset points from this
      centre towards the partner's: it is `r / d` times the offset between
      the centres. */
  lemma ContactTowardPartner(mth: Math, r: real, p: Particle, q: Particle)
    requires SqrtLaw(mth) && HeadingLaw(mth)
    requires Distance(mth, p, q) != 0.0 && Distance(mth, p, q) <= 2.0 * r
    ensures var c := Intersection(mth, r, p, q).value;
      && c.xint * Distance(mth, p, q) == r * (q.x - p.x)
      && c.yint * Distance(mth, p, q) == r * (q.y - p.y)
  {
    ContactOffset(mth, r, p, q);
    TowardPartner(mth, r, p, q);
  }

  lemma MulCongruence(a: real, b: real, k: real)
    requires a == b
    ensures a * k == b * k
  {
  }

  /** The two end points of a link, `[x1, y1, x2, y2]`. */
  datatype Segment = Segment(x1: real, y1: real, x2: real, y2: real)

  /** The segment between two rims along the line of centres. */
  function Rims(mth: Math, r: real, p: Particle, q: Particle): Segment {
    var theta := Atan2(mth, q.y - p.y, q.x - p.x);
    var c := Cos(mth, theta);
    var s := Sin(mth, theta);
    Segment(p.x + r * c, p.y + r * s, q.x - r * c, q.y - r * s)
  }

  /** The query half of `arm(other)`: a segment iff the centres are at most
      `armlen` apart (the push onto `_arms` is done by the link pass). */
  function ArmSegment(mth: Math, r: real, armlen: real, p: Particle, q: Particle): (s: Option<Segment>)
    ensures s.Some? <==> Distance(mth, p, q) <= armlen
    ensures s.Some? ==> s.value == Rims(mth, r, p, q)
  {
    if Distance(mth, p, q) <= armlen then Some(Rims(mth, r, p, q)) else None
  }

  /** A link starts on this atom's rim and ends on the partner's rim. */
  lemma RimsOnRims(mth: Math, r: real, p: Particle, q: Particle)
    requires SqrtLaw(mth) && UnitLaw(mth) && 0.0 <= r
    ensures var s := Rims(mth, r, p, q);
      && Norm(mth, s.x1 - p.x, s.y1 - p.y) == r
      && Norm(mth, q.x - s.x2, q.y - s.y2) == r
  {
    var t := Atan2(mth, q.y - p.y, q.x - p.x);
    var s := Rims(mth, r, p, q);
    RimOffsets(mth, r, p, q);
    assert s.x1 - p.x == r * Cos(mth, t) && s.y1 - p.y == r * Sin(mth, t);
    assert q.x - s.x2 == r * Cos(mth, t) && q.y - s.y2 == r * Sin(mth, t);
    NormOfScaledUnit(mth, r, t);
    NormCongruence(mth, s.x1 - p.x, s.y1 - p.y, r * Cos(mth, t), r * Sin(mth, t));
    NormCongruence(mth, q.x - s.x2, q.y - s.y2, r * Cos(mth, t), r * Sin(mth, t));
  }

  /** Both ends sit `r` along the heading from `p` to `q`, from their own centre. */
  lemma RimOffsets(mth: Math, r: real, p: Particle, q: Particle)
    ensures Rims(mth, r, p, q).x1 - p.x == r * Cos(mth, Atan2(mth, q.y - p.y, q.x - p.x))
    ensures Rims(mth, r, p, q).y1 - p.y == r * Sin(mth, Atan2(mth, q.y - p.y, q.x - p.x))
    ensures q.x - Rims(mth, r, p, q).x2 == r * Cos(mth, Atan2(mth, q.y - p.y, q.x - p.x))
    ensures q.y - Rims(mth, r, p, q).y2 == r * Sin(mth, Atan2(mth, q.y - p.y, q.x - p.x))
  {
  }

  /** Link opacity `armColor[3] * (1 - d / armlen)`. */
  function Alpha(base: real, d: real, armlen: real): real
    requires armlen != 0.0
  {
    base * (1.0 - d / armlen)
  }

  /** A link has the colour's own alpha at distance 0 and is fully
      transparent at `armlen`; in between it stays within those bounds. */
  lemma AlphaEnds(base: real, d: real, armlen: real)
    requires 0.0 < armlen && 0.0 <= base && 0.0 <= d <= armlen
    ensures Alpha(base, 0.0, armlen) == base
    ensures Alpha(base, armlen, armlen) == 0.0
    ensures 0.0 <= Alpha(base, d, armlen) <= base
  {
    var f := d / armlen;
    assert f <= 1.0;
    assert 0.0 <= 1.0 - f <= 1.0;
    assert base * (1.0 - f) <= base * 1.0;
  }

  /** Farther apart never means more opaque; with a visible colour, strictly less. */
  lemma AlphaFades(base: real, d1: real, d2: real, armlen: real)
    requires 0.0 < armlen && 0.0 <= base && d1 <= d2
    ensures Alpha(base, d2, armlen) <= Alpha(base, d1, armlen)
    ensures 0.0 < base && d1 < d2 ==> Alpha(base, d2, armlen) < Alpha(base, d1, armlen)
  {
    var f1, f2 := d1 / armlen, d2 / armlen;
    assert f1 <= f2;
    assert base * (f2 - f1) >= 0.0;
    if 0.0 < base && d1 < d2 {
      assert f1 < f2;
      assert base * (f2 - f1) > 0.0;
    }
  }

  // ---------------------------------------------------------- pointer effect

  /** `mouseEffect(mousepos, moving, clicked)` on one atom (main.js has no
      `moving` test: it passes `true`). Within `mouser` of a moving pointer
      the velocity is overwritten; within `clickr` of a click the atom enters
      the burst state at `amax`; otherwise those fields are left alone, and
      the position never changes. */
  function MouseEffect(mth: Math, prm: Params, p: Particle, mx: real, my: real, moving: bool, clicked: bool): (q: Particle)
    ensures q.x == p.x && q.y == p.y
    ensures var d := PointerDistance(mth, p, mx, my);
      && (!(moving && d <= prm.mouser) ==> q.xdot == p.xdot && q.ydot == p.ydot)
      && (if clicked && d <= prm.clickr then q.isAcc && q.a == prm.amax else q.isAcc == p.isAcc && q.a == p.a)
  {
    var xrel := mx - p.x;
    var yrel := my - p.y;
    var mouseDist := Norm(mth, xrel, yrel);
    var p1 :=
      if moving && mouseDist <= prm.mouser then
        var theta := Atan2(mth, yrel, xrel);
        var vx := prm.mousev * Cos(mth, theta);
        var vy := prm.mousev * Sin(mth, theta);
        p.(xdot := -vx, ydot := -vy)
      else p;
    if clicked && mouseDist <= prm.clickr then p1.(a := prm.amax, isAcc := true) else p1
  }

  /** A repelled atom moves at speed `|mousev|`. */
  lemma RepelledSpeed(mth: Math, prm: Params, p: Particle, mx: real, my: real, moving: bool, clicked: bool)
    requires SqrtLaw(mth) && UnitLaw(mth)
    requires moving && PointerDistance(mth, p, mx, my) <= prm.mouser
    ensures Vmag(mth, MouseEffect(mth, prm, p, mx, my, moving, clicked)) == Abs(prm.mousev)
  {
    var t := Atan2(mth, my - p.y, mx - p.x);
    var q := MouseEffect(mth, prm, p, mx, my, moving, clicked);
    RepelledVelocity(mth, prm, p, mx, my, moving, clicked);
    NormOfNegScaledUnit(mth, prm.mousev, t, q.xdot, q.ydot);
  }

  /** `-k` times the unit vector of any angle also has length `|k|`. */
  lemma NormOfNegScaledUnit(mth: Math, k: real, t: real, vx: real, vy: real)
    requires SqrtLaw(mth) && UnitLaw(mth)
    requires vx == -(k * Cos(mth, t)) && vy == -(k * Sin(mth, t))
    ensures Norm(mth, vx, vy) == Abs(k)
  {
    NormNeg(mth, k * Cos(mth, t), k * Sin(mth, t));
    NormOfScaledUnit(mth, k, t);
    NormCongruence(mth, vx, vy, -(k * Cos(mth, t)), -(k * Sin(mth, t)));
  }

  /** A repelled atom moves straight away from the pointer: its velocity is
      `-mousev / d` times the offset from the atom to the pointer (when the
      pointer sits on the centre, `d` and the offset are both zero). */
  lemma RepelledAway(mth: Math, prm: Params, p: Particle, mx: real, my: real, moving: bool, clicked: bool)
    requires SqrtLaw(mth) && HeadingLaw(mth)
    requires moving && PointerDistance(mth, p, mx, my) <= prm.mouser
    ensures var q := MouseEffect(mth, prm, p, mx, my, moving, clicked);
      && q.xdot * PointerDistance(mth, p, mx, my) == -prm.mousev * (mx - p.x)
      && q.ydot * PointerDistance(mth, p, mx, my) == -prm.mousev * (my - p.y)
  {
    var t := Atan2(mth, my - p.y, mx - p.x);
    var d := PointerDistance(mth, p, mx, my);
    var q := MouseEffect(mth, prm, p, mx, my, moving, clicked);
    var dx, dy := mx - p.x, my - p.y;
    var co, si := Cos(mth, t), Sin(mth, t);
    RepelledVelocity(mth, prm, p, mx, my, moving, clicked);
    assert q.xdot == -(prm.mousev * co) && q.ydot == -(prm.mousev * si);
    assert d == Norm(mth, dx, dy);
    NormZero(mth, dx, dy);
    if d != 0.0 {
      Heading(mth, dx, dy);
      assert d * co == dx && d * si == dy;
      NegScaleEquation(prm.mousev, co, d, dx);
      NegScaleEquation(prm.mousev, si, d, dy);
    }
    MulCongruence(q.xdot, -(prm.mousev * co), d);
    MulCongruence(q.ydot, -(prm.mousev * si), d);
  }

  /** The repelled velocity is `-mousev` along the heading towards the pointer. */
  lemma RepelledVelocity(mth: Math, prm: Params, p: Particle, mx: real, my: real, moving: bool, clicked: bool)
    requires moving && PointerDistance(mth, p, mx, my) <= prm.mouser
    ensures MouseEffect(mth, prm, p, mx, my, moving, clicked).xdot == -(prm.mousev * Cos(mth, Atan2(mth, my - p.y, mx - p.x)))
    ensures MouseEffect(mth, prm, p, mx, my, moving, clicked).ydot == -(prm.mousev * Sin(mth, Atan2(mth, my - p.y, mx - p.x)))
  {
  }

  /** Multiplying both sides of `d * c == v` by `-k`. */
  lemma NegScaleEquation(k: real, c: real, d: real, v: real)
    requires d * c == v
    ensures -(k * c) * d == -k * v
  {
    var dc := d * c;
    assert -(k * c) * d == -k * dc;
  }

  // ------------------------------------------------------------- integration

  /** The burst block of `render`: while accelerating, push the velocity along
      its own heading by `dt * a`, then let `a` fall by `dt * jerk` until it is
      no longer above `-amax`, at which point the burst ends. */
  function Accelerate(mth: Math, p: Particle, dt: real, amax: real, jerk: real): Particle {
    if p.isAcc then
      var vtheta := Atan2(mth, p.ydot, p.xdot);
      var ax := p.a * Cos(mth, vtheta);
      var ay := p.a * Sin(mth, vtheta);
      var v := p.(xdot := p.xdot + dt * ax, ydot := p.ydot + dt * ay);
      if p.a > -amax then v.(a := p.a - dt * jerk) else v.(isAcc := false, a := 0.0)
    else
      p
  }

  /** The overspeed check of `render`: above `vlimit` the burst machine is
      re-armed with zero acceleration (the speed itself is not capped). */
  function Overspeed(mth: Math, p: Particle, vlimit: real): (q: Particle)
    ensures q.x == p.x && q.y == p.y && q.xdot == p.xdot && q.ydot == p.ydot
    ensures q.isAcc == (p.isAcc || Vmag(mth, p) > vlimit)
    ensures q.a == (if Vmag(mth, p) > vlimit then 0.0 else p.a)
  {
    if Vmag(mth, p) > vlimit then p.(isAcc := true, a := 0.0) else p
  }

  /** `_x += dt * _xdot; _y += dt * _ydot`. */
  function Move(p: Particle, dt: real): (q: Particle)
    ensures q.xdot == p.xdot && q.ydot == p.ydot && q.a == p.a && q.isAcc == p.isAcc
  {
    p.(x := p.x + dt * p.xdot, y := p.y + dt * p.ydot)
  }

  /** Moving by `-dt` undoes moving by `dt`: the step is a pure translation
      along the velocity. */
  lemma MoveUndone(p: Particle, dt: real)
    ensures Move(Move(p, dt), -dt) == p
  {
  }

  /** The two wall tests of one axis, in the source's order: the far wall
      flips an outgoing positive component, then the near wall flips an
      outgoing negative one (seeing the first test's result). */
  function ReflectAxis(pos: real, v: real, r: real, bound: real): real {
    var v1 := if pos + r >= bound && v > 0.0 then -v else v;
    if pos - r <= 0.0 && v1 < 0.0 then -v1 else v1
  }

  /** Reflection keeps the speed along the axis, changes the component only
      when the leading edge is at or past a wall and the component points out
      through it, and (in a box wider than one atom) leaves it pointing back
      inside. */
  lemma ReflectAxisFlipsOutward(pos: real, v: real, r: real, bound: real)
    ensures var w := ReflectAxis(pos, v, r, bound);
      && (w == v || w == -v)
      && (w != v ==> (pos + r >= bound && v > 0.0) || (pos - r <= 0.0 && v < 0.0))
      && (pos + r >= bound && v > 0.0 && pos - r > 0.0 ==> w == -v)
      && (pos - r <= 0.0 && v < 0.0 ==> w == -v)
      && (2.0 * r < bound ==> (pos + r >= bound ==> w <= 0.0) && (pos - r <= 0.0 ==> w >= 0.0))
  {
  }

  /** In a box wider than one atom, reflecting twice is reflecting once: a
      reflected component already points back inside. */
  lemma ReflectAxisIdempotent(pos: real, v: real, r: real, bound: real)
    requires 2.0 * r < bound
    ensures ReflectAxis(pos, ReflectAxis(pos, v, r, bound), r, bound) == ReflectAxis(pos, v, r, bound)
  {
  }

  /** Reflection on both axes; it never moves the atom. */
  function Reflect(p: Particle, r: real, xmax: real, ymax: real): (q: Particle)
    ensures q.x == p.x && q.y == p.y && q.a == p.a && q.isAcc == p.isAcc
  {
    p.(xdot := ReflectAxis(p.x, p.xdot, r, xmax), ydot := ReflectAxis(p.y, p.ydot, r, ymax))
  }

  /** The physics half of `render(dt)`: burst, overspeed check, move, reflect. */
  function Integrate(mth: Math, prm: Params, p: Particle, dt: real, vlimit: real): Particle {
    var p1 := Accelerate(mth, p, dt, prm.amax, prm.jerk);
    var p2 := Overspeed(mth, p1, vlimit);
    Reflect(Move(p2, dt), prm.r, prm.xmax, prm.ymax)
  }

  /** The burst pushes the velocity along its own heading: the new velocity
      is `(|v| + dt * a) / |v|` times the old one. A cruising atom is left
      alone, and no atom moves. */
  lemma AccelerateAlongHeading(mth: Math, p: Particle, dt: real, amax: real, jerk: real)
    requires SqrtLaw(mth) && HeadingLaw(mth)
    ensures var q := Accelerate(mth, p, dt, amax, jerk);
      && q.x == p.x && q.y == p.y
      && (!p.isAcc ==> q == p)
      && (p.isAcc ==>
            && q.xdot * Vmag(mth, p) == p.xdot * (Vmag(mth, p) + dt * p.a)
            && q.ydot * Vmag(mth, p) == p.ydot * (Vmag(mth, p) + dt * p.a))
  {
    if p.isAcc {
      var v := Vmag(mth, p);
      var t := Atan2(mth, p.ydot, p.xdot);
      var co, si := Cos(mth, t), Sin(mth, t);
      var q := Accelerate(mth, p, dt, amax, jerk);
      assert q.xdot == p.xdot + dt * (p.a * co) && q.ydot == p.ydot + dt * (p.a * si);
      NormZero(mth, p.xdot, p.ydot);
      if v != 0.0 {
        Heading(mth, p.xdot, p.ydot);
        PushAlong(p.xdot, v, co, dt, p.a);
        PushAlong(p.ydot, v, si, dt, p.a);
      }
    }
  }

  /** Pushing `x = v * c` by `dt * (a * c)` scales it by `(v + dt * a) / v`. */
  lemma PushAlong(x: real, v: real, c: real, dt: real, a: real)
    requires v * c == x
    ensures (x + dt * (a * c)) * v == x * (v + dt * a)
  {
    var vc := v * c;
    assert (x + dt * (a * c)) * v == x * v + dt * a * vc;
  }

  /** The walls never change the speed along an axis: after integration each
      velocity component has the magnitude the burst step gave it. */
  lemma IntegrateSpeeds(mth: Math, prm: Params, p: Particle, dt: real, vlimit: real)
    ensures var p1 := Accelerate(mth, p, dt, prm.amax, prm.jerk);
      var q := Integrate(mth, prm, p, dt, vlimit);
      Abs(q.xdot) == Abs(p1.xdot) && Abs(q.ydot) == Abs(p1.ydot)
  {
    var p1 := Accelerate(mth, p, dt, prm.amax, prm.jerk);
    var m := Move(Overspeed(mth, p1, vlimit), dt);
    ReflectAxisFlipsOutward(m.x, m.xdot, prm.r, prm.xmax);
    ReflectAxisFlipsOutward(m.y, m.ydot, prm.r, prm.ymax);
  }

  /** Integration keeps the burst invariant. */
  lemma IntegrateKeepsBurstOk(mth: Math, prm: Params, p: Particle, dt: real, vlimit: real)
    requires ParamsOk(prm) && 0.0 <= dt && BurstOk(p, prm.amax)
    ensures BurstOk(Integrate(mth, prm, p, dt, vlimit), prm.amax)
  {
    assert 0.0 <= dt * prm.jerk;
  }

  /** The burst state machine, one tick: an atom that is not overspeeding
      after its burst step either keeps cruising with its velocity, or decays
      `a` by `dt * jerk` while `a > -amax`, or ends the burst with `a = 0`; an
      overspeeding atom is put back into the burst state with `a = 0`. The
      position advances by `dt` times the post-burst velocity, whatever the
      walls do to the velocity. */
  lemma BurstTransitions(mth: Math, prm: Params, p: Particle, dt: real, vlimit: real)
    ensures var p1 := Accelerate(mth, p, dt, prm.amax, prm.jerk);
      var q := Integrate(mth, prm, p, dt, vlimit);
      && q.x == p.x + dt * p1.xdot && q.y == p.y + dt * p1.ydot
      && (Vmag(mth, p1) > vlimit ==> q.isAcc && q.a == 0.0)
      && (Vmag(mth, p1) <= vlimit ==>
            && (!p.isAcc ==> !q.isAcc && q.a == p.a && p1.xdot == p.xdot && p1.ydot == p.ydot)
            && (p.isAcc && p.a > -prm.amax ==> q.isAcc && q.a == p.a - dt * prm.jerk)
            && (p.isAcc && p.a <= -prm.amax ==> !q.isAcc && q.a == 0.0))
  {
  }
}
