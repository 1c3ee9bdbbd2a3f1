/**
 main.js: the earlier script version, built on globals. The constants are
 fixed module-level variables, the canvas size is read once, and `draw` runs
 once per frame over the global `atoms` array.

 It differs from atomic.js in four places:
 - the pointer effect has no movement test, so a pointer at rest still
   repels;
 - `clicked` is cleared once, after the whole frame, so every atom within
   `clickr` of a click bursts;
 - the overspeed threshold is `2 * vmax`;
 - a global `a` is decayed at the top of every frame but starts at 0 and is
   never set elsewhere, so it stays 0.
 */
module MainScript {
  import opened Circle
  import opened Passes
  import A = Atomic

  // -------------------------------------------------------------- settings

  const NumAtoms: nat := 500

  /** The global constants, with the canvas size as `xmax`/`ymax`. */
  function Settings(width: real, height: real): (prm: Params)
    ensures ParamsOk(prm)
    ensures prm.mousev == prm.vmax && prm.xmax == width && prm.ymax == height
  {
    Params(2.0, 30.0, 100.0, 10.0, 30.0, 300.0, 30.0, 6.0, width, height,
      Rgba(155.0, 0.0, 200.0, 1.0), Rgba(200.0, 0.0, 155.0, 0.5))
  }

  // ---------------------------------------------------------- the global a

  /** The top of `draw`: a non-zero `a` decays by `dt * jerk` while above
      `-amax` and is then reset to 0; a zero `a` is left alone. */
  function Decayed(a: real, dt: real, amax: real, jerk: real): real {
    if a != 0.0 then (if a > -amax then a - dt * jerk else 0.0) else a
  }

  /** `a` after `n` frames. */
  function DecayedTimes(a: real, n: nat, dt: real, amax: real, jerk: real): real {
    if n == 0 then a else Decayed(DecayedTimes(a, n - 1, dt, amax, jerk), dt, amax, jerk)
  }

  /** Starting at 0, the global `a` is 0 after any number of frames. */
  lemma {:induction false} GlobalAStaysZero(n: nat, dt: real, amax: real, jerk: real)
    ensures DecayedTimes(0.0, n, dt, amax, jerk) == 0.0
  {
    if n > 0 {
      GlobalAStaysZero(n - 1, dt, amax, jerk);
    }
  }

  /** The decay keeps `a` between `-amax - dt * jerk` and `amax`: it only
      steps down from above `-amax`, and otherwise lands on 0. */
  lemma DecayedStaysInRange(a: real, dt: real, amax: real, jerk: real)
    requires 0.0 <= dt * jerk && 0.0 <= amax
    requires -amax - dt * jerk <= a <= amax
    ensures var b := Decayed(a, dt, amax, jerk);
      -amax - dt * jerk <= b <= amax
  {
  }

  /** ... and so for any number of frames. */
  lemma {:induction false} DecayedTimesStaysInRange(a: real, n: nat, dt: real, amax: real, jerk: real)
    requires 0.0 <= dt * jerk && 0.0 <= amax
    requires -amax - dt * jerk <= a <= amax
    ensures var b := DecayedTimes(a, n, dt, amax, jerk);
      -amax - dt * jerk <= b <= amax
  {
    if n > 0 {
      DecayedTimesStaysInRange(a, n - 1, dt, amax, jerk);
      DecayedStaysInRange(DecayedTimes(a, n - 1, dt, amax, jerk), dt, amax, jerk);
    }
  }

  /** A non-zero `a` (were it ever set) would run the same decay as an
      atom's burst: down by `dt * jerk` while above `-amax`, then back to 0. */
  lemma DecayLikeBurst(mth: Math, prm: Params, p: Particle, dt: real)
    requires p.isAcc && p.a != 0.0
    ensures var q := Accelerate(mth, p, dt, prm.amax, prm.jerk);
      Decayed(p.a, dt, prm.amax, prm.jerk) == q.a
  {
  }

  // --------------------------------------------------------- pointer effect

  /** The pointer loop of `draw`: every atom runs `mouseEffect` with the same
      click flag, and always as if the pointer were moving. */
  function PointedAll(mth: Math, prm: Params, ps: seq<Particle>, mx: real, my: real, clicked: bool): (qs: seq<Particle>)
    ensures |qs| == |ps|
    ensures forall t :: 0 <= t < |ps| ==> qs[t] == MouseEffect(mth, prm, ps[t], mx, my, true, clicked)
  {
    seq(|ps|, t requires 0 <= t < |ps| => MouseEffect(mth, prm, ps[t], mx, my, true, clicked))
  }

  /** On a click every atom within `clickr` enters the burst state at
      `amax`; without a click no atom's burst state changes. */
  lemma EveryNearAtomBursts(mth: Math, prm: Params, ps: seq<Particle>, mx: real, my: real, clicked: bool)
    ensures var qs := PointedAll(mth, prm, ps, mx, my, clicked);
      && (forall t :: 0 <= t < |ps| && clicked && PointerDistance(mth, ps[t], mx, my) <= prm.clickr ==>
            qs[t].isAcc && qs[t].a == prm.amax)
      && (forall t :: 0 <= t < |ps| && !(clicked && PointerDistance(mth, ps[t], mx, my) <= prm.clickr) ==>
            qs[t].isAcc == ps[t].isAcc && qs[t].a == ps[t].a)
  {
    var qs := PointedAll(mth, prm, ps, mx, my, clicked);
    forall t | 0 <= t < |ps|
      ensures clicked && PointerDistance(mth, ps[t], mx, my) <= prm.clickr ==> qs[t].isAcc && qs[t].a == prm.amax
      ensures !(clicked && PointerDistance(mth, ps[t], mx, my) <= prm.clickr) ==> qs[t].isAcc == ps[t].isAcc && qs[t].a == ps[t].a
    {
      assert qs[t] == MouseEffect(mth, prm, ps[t], mx, my, true, clicked);
    }
  }

  /** Repulsion does not depend on pointer movement: every atom within
      `mouser` leaves at speed `|mousev|`, straight away from the pointer. */
  lemma RepelledAtRest(mth: Math, prm: Params, ps: seq<Particle>, mx: real, my: real, clicked: bool, t: nat)
    requires Lawful(mth)
    requires t < |ps| && PointerDistance(mth, ps[t], mx, my) <= prm.mouser
    ensures var q := PointedAll(mth, prm, ps, mx, my, clicked)[t];
      var d := PointerDistance(mth, ps[t], mx, my);
      && Vmag(mth, q) == Abs(prm.mousev)
      && q.xdot * d == -prm.mousev * (mx - ps[t].x)
      && q.ydot * d == -prm.mousev * (my - ps[t].y)
  {
    RepelledSpeed(mth, prm, ps[t], mx, my, true, clicked);
    RepelledAway(mth, prm, ps[t], mx, my, true, clicked);
  }

  /** Without a click the two pointer loops agree, except that this one
      always counts the pointer as moving; on a click they still agree on
      atom 0, the only atom the later loop lets the click reach. */
  lemma PointerLoopsAgree(mth: Math, prm: Params, ps: seq<Particle>, mx: real, my: real, clicked: bool)
    ensures PointedAll(mth, prm, ps, mx, my, false) == A.Pointed(mth, prm, ps, mx, my, true, false)
    ensures 0 < |ps| ==> PointedAll(mth, prm, ps, mx, my, clicked)[0] == A.Pointed(mth, prm, ps, mx, my, true, clicked)[0]
  {
  }

  /** The pointer loop keeps every atom's burst invariant. */
  lemma PointedAllKeepsBurstOk(mth: Math, prm: Params, ps: seq<Particle>, mx: real, my: real, clicked: bool)
    requires AllBurstOk(ps, prm.amax)
    ensures AllBurstOk(PointedAll(mth, prm, ps, mx, my, clicked), prm.amax)
  {
    var qs := PointedAll(mth, prm, ps, mx, my, clicked);
    forall t | 0 <= t < |qs|
      ensures BurstOk(qs[t], prm.amax)
    {
      assert BurstOk(ps[t], prm.amax);
    }
  }

  // ---------------------------------------------------------------- globals

  /** The script's global state. The canvas, the listeners and the frame
      loop are outside the model: the pointer fields are set by the caller,
      and each call of `Draw` is one frame, whose drawing is left in
      `frame`. */
  class Globals {
    const mth: Math
    const prm: Params
    const atoms: array<Particle>
    const hits: array<seq<nat>>
    const arms: array<seq<nat>>
    const dt: real
    var a: real
    var clicked: bool
    var mx: real
    var my: real
    var frame: seq<DrawCmd>

    /** The array holds `numAtoms` atoms, each keeping the burst
        invariant, and the global `a` is still 0 (`GlobalAStaysZero`). */
    predicate Valid()
      reads this, atoms
    {
      && hits != arms && atoms.Length == hits.Length == arms.Length == NumAtoms
      && dt == 0.1 && prm == Settings(prm.xmax, prm.ymax)
      && AllBurstOk(atoms[..], prm.amax)
      && a == 0.0
    }

    /** The script's start on a `width` by `height` canvas, with `init` the
        sampled position and velocity of each atom. */
    constructor(mth: Math, width: real, height: real, init: seq<(real, real, real, real)>)
      requires |init| == NumAtoms
      ensures this.mth == mth && prm == Settings(width, height)
      ensures fresh(atoms) && fresh(hits) && fresh(arms)
      ensures atoms[..] == Spawned(init)
      ensures a == 0.0 && !clicked && mx == 0.0 && my == 0.0 && frame == []
      ensures Valid()
    {
      var spawned := SpawnAll(init);
      var h, l := EmptyLists(NumAtoms);
      this.mth := mth;
      prm := Settings(width, height);
      atoms := spawned;
      hits := h;
      arms := l;
      dt := 0.1;
      a := 0.0;
      clicked := false;
      mx := 0.0;
      my := 0.0;
      frame := [];
    }

    /** The decay of the global `a` at the top of `draw`. */
    method DecayA()
      modifies this`a
      ensures a == Decayed(old(a), dt, prm.amax, prm.jerk)
    {
      if a != 0.0 {
        if a > -prm.amax {
          a := a - dt * prm.jerk;
        } else {
          a := 0.0;
        }
      }
    }

    /** The pointer loop of `draw`. */
    method PointerPass()
      modifies atoms
      ensures atoms[..] == PointedAll(mth, prm, old(atoms[..]), mx, my, clicked)
    {
      for i := 0 to atoms.Length
        invariant forall t :: 0 <= t < i ==> atoms[t] == MouseEffect(mth, prm, old(atoms[t]), mx, my, true, clicked)
        invariant forall t :: i <= t < atoms.Length ==> atoms[t] == old(atoms[t])
      {
        atoms[i] := MouseEffect(mth, prm, atoms[i], mx, my, true, clicked);
      }
    }

    /** `draw`: one frame. The global `a` decays; the atoms end as the
        collision, link and integration passes leave the pointer loop's
        result, with `2 * vmax` as the overspeed threshold; the frame is the
        links, then the discs; `clicked` is false afterwards; and the burst
        invariant survives. */
    method Draw()
      requires Valid()
      modifies atoms, hits, arms, this`a, this`clicked, this`frame
      ensures Valid()
      ensures a == Decayed(old(a), dt, prm.amax, prm.jerk)
      ensures !clicked
      ensures var f := AfterPointer(mth, prm, PointedAll(mth, prm, old(atoms[..]), mx, my, old(clicked)), dt, 2.0 * prm.vmax);
        atoms[..] == f.atoms && frame == f.cmds && hits[..] == f.hits && arms[..] == f.arms
    {
      DecayA();
      ghost var pointed := PointedAll(mth, prm, atoms[..], mx, my, clicked);
      PointedAllKeepsBurstOk(mth, prm, atoms[..], mx, my, clicked);
      ClearTransients(hits, arms);
      PointerPass();
      frame := AfterPointerPasses(mth, prm, atoms, hits, arms, dt, 2.0 * prm.vmax);
      AfterPointerKeepsBurstOk(mth, prm, pointed, dt, 2.0 * prm.vmax);
      clicked := false;
    }
  }

  /** A frame that starts without a click leaves every atom's burst state
      as the pointer loop found it, and the next frame again starts without
      one unless a click arrives in between. */
  lemma NoClickNoBurst(mth: Math, prm: Params, ps: seq<Particle>, mx: real, my: real)
    ensures var qs := PointedAll(mth, prm, ps, mx, my, false);
      forall t :: 0 <= t < |ps| ==> qs[t].isAcc == ps[t].isAcc && qs[t].a == ps[t].a
  {
    EveryNearAtomBursts(mth, prm, ps, mx, my, false);
  }
}
