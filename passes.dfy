/**
 The all-atoms passes of one tick, common to atomic.js and main.js: clearing
 the per-atom lists, the collision pass (`collisions` run by every atom in
 turn), the link pass (`renderArms` run by every atom in turn) and the
 integration pass (`render` run by every atom in turn).

 The atoms are an array of `Particle` records; each atom's `_hits` and `_arms`
 lists of partner objects are an array of lists of partner INDICES, one list
 per atom, and `push` appends. Object identity (`atoms[i] === this`) becomes
 index equality.

 Each pass is proved against a definition on sequences:
 - the collision pass is the left fold of `Resolve` over `NearPairs`, the
   contacting pairs `(i, j)` with `i < j` in lexicographic order;
 - the link pass draws `LinkCmds` of the in-range pairs, in the same order;
 - the integration pass applies `Integrate` to every atom.
 */
module Passes {
  import opened Circle

  /** What a tick draws: a link line in a colour, or an atom's disc. */
  datatype DrawCmd = Line(seg: Segment, color: Rgba) | Disc(x: real, y: real, radius: real, color: Rgba)

  // ------------------------------------------------------------ neighbours

  predicate Near(mth: Math, ps: seq<Particle>, reach: real, i: nat, j: nat)
    requires i < |ps| && j < |ps|
  {
    Distance(mth, ps[i], ps[j]) <= reach
  }

  predicate Ascending(s: seq<nat>) {
    forall a, b :: 0 <= a < b < |s| ==> s[a] < s[b]
  }

  /** The atoms `j` in `[lo, hi)`, other than `k`, within `reach` of atom `k`,
      in increasing order: what a loop over `j` pushes onto atom `k`'s list. */
  function Neighbours(mth: Math, ps: seq<Particle>, reach: real, k: nat, lo: nat, hi: nat): (s: seq<nat>)
    requires k < |ps| && hi <= |ps|
    ensures forall t :: 0 <= t < |s| ==> lo <= s[t] < hi && s[t] != k
    decreases hi
  {
    if hi <= lo then []
    else
      var s0 := Neighbours(mth, ps, reach, k, lo, hi - 1);
      if hi - 1 != k && Near(mth, ps, reach, k, hi - 1) then s0 + [hi - 1] else s0
  }

  /** `Neighbours` holds exactly the atoms in range of `k`. */
  lemma {:induction false} NeighboursExactly(mth: Math, ps: seq<Particle>, reach: real, k: nat, lo: nat, hi: nat)
    requires k < |ps| && hi <= |ps|
    ensures forall j: nat :: j in Neighbours(mth, ps, reach, k, lo, hi) <==>
      lo <= j < hi && j != k && Near(mth, ps, reach, k, j)
    decreases hi
  {
    if lo < hi {
      NeighboursExactly(mth, ps, reach, k, lo, hi - 1);
    }
  }

  /** `Neighbours` lists its atoms in increasing order, so each once. */
  lemma {:induction false} NeighboursAscending(mth: Math, ps: seq<Particle>, reach: real, k: nat, lo: nat, hi: nat)
    requires k < |ps| && hi <= |ps|
    ensures Ascending(Neighbours(mth, ps, reach, k, lo, hi))
    decreases hi
  {
    if lo < hi {
      NeighboursAscending(mth, ps, reach, k, lo, hi - 1);
    }
  }

  /** One more step of the loop over `j`. */
  lemma NeighboursStep(mth: Math, ps: seq<Particle>, reach: real, k: nat, lo: nat, hi: nat)
    requires k < |ps| && lo <= hi < |ps|
    ensures Neighbours(mth, ps, reach, k, lo, hi + 1) ==
      Neighbours(mth, ps, reach, k, lo, hi) + (if hi != k && Near(mth, ps, reach, k, hi) then [hi] else [])
  {
  }

  /** The pairs `(k, j)` for the partners `j` of one row. */
  function Row(k: nat, s: seq<nat>): (row: seq<(nat, nat)>)
    ensures |row| == |s|
    ensures forall t :: 0 <= t < |s| ==> row[t] == (k, s[t])
  {
    seq(|s|, t requires 0 <= t < |s| => (k, s[t]))
  }

  /** Index pairs `(i, j)` with `i < j < n`. */
  predicate OrderedPairs(pairs: seq<(nat, nat)>, n: nat) {
    forall t :: 0 <= t < |pairs| ==> pairs[t].0 < pairs[t].1 < n
  }

  predicate LexLess(p: (nat, nat), q: (nat, nat)) {
    p.0 < q.0 || (p.0 == q.0 && p.1 < q.1)
  }

  predicate LexAscending(pairs: seq<(nat, nat)>) {
    forall a, b :: 0 <= a < b < |pairs| ==> LexLess(pairs[a], pairs[b])
  }

  /** The pairs within `reach` whose lower index is below `k`, row by row. */
  function PairsBelow(mth: Math, ps: seq<Particle>, reach: real, k: nat): (pairs: seq<(nat, nat)>)
    requires k <= |ps|
    ensures OrderedPairs(pairs, |ps|)
  {
    if k == 0 then []
    else PairsBelow(mth, ps, reach, k - 1) + Row(k - 1, Neighbours(mth, ps, reach, k - 1, k, |ps|))
  }

  /** Every pair of atoms within `reach`, lower index first, in the order the
      tick loops visit them. */
  function NearPairs(mth: Math, ps: seq<Particle>, reach: real): (pairs: seq<(nat, nat)>)
    ensures OrderedPairs(pairs, |ps|)
  {
    PairsBelow(mth, ps, reach, |ps|)
  }

  /** A row holds exactly the pairs `(k, j)` for the partners `j`. */
  lemma RowMembers(k: nat, s: seq<nat>)
    ensures forall i: nat, j: nat :: (i, j) in Row(k, s) <==> i == k && j in s
  {
    var row := Row(k, s);
    forall i: nat, j: nat | (i, j) in row
      ensures i == k && j in s
    {
      var t :| 0 <= t < |row| && row[t] == (i, j);
      assert s[t] in s;
    }
    forall j: nat | j in s
      ensures (k, j) in row
    {
      var t :| 0 <= t < |s| && s[t] == j;
      assert row[t] == (k, j);
    }
  }

  /** Rows of a higher lower index extend the lexicographic order. */
  lemma AppendRow(prev: seq<(nat, nat)>, row: seq<(nat, nat)>, k: nat)
    requires LexAscending(prev) && LexAscending(row)
    requires forall t :: 0 <= t < |prev| ==> prev[t].0 < k
    requires forall t :: 0 <= t < |row| ==> row[t].0 == k
    ensures LexAscending(prev + row)
  {
    forall a, b | 0 <= a < b < |prev + row|
      ensures LexLess((prev + row)[a], (prev + row)[b])
    {
      if b >= |prev| && a < |prev| {
        assert (prev + row)[b] == row[b - |prev|];
      }
    }
  }

  /** `pairs` holds exactly the pairs `i < j` within reach with `i < k`. */
  ghost predicate PairsExactly(mth: Math, ps: seq<Particle>, reach: real, pairs: seq<(nat, nat)>, k: nat) {
    forall i: nat, j: nat :: (i, j) in pairs <==> i < k && i < j < |ps| && Near(mth, ps, reach, i, j)
  }

  /** Appending row `k - 1` to the pairs below `k - 1` gives the pairs
      below `k`. */
  lemma NextRowMembers(mth: Math, ps: seq<Particle>, reach: real, k: nat, prev: seq<(nat, nat)>)
    requires 0 < k <= |ps|
    ensures PairsExactly(mth, ps, reach, prev, k - 1) ==>
      PairsExactly(mth, ps, reach, prev + Row(k - 1, Neighbours(mth, ps, reach, k - 1, k, |ps|)), k)
  {
    if PairsExactly(mth, ps, reach, prev, k - 1) {
      NeighboursExactly(mth, ps, reach, k - 1, k, |ps|);
      RowMembers(k - 1, Neighbours(mth, ps, reach, k - 1, k, |ps|));
    }
  }

  /** Appending row `k - 1` to pairs whose lower index is below `k - 1`
      keeps the lexicographic order. */
  lemma NextRowOrder(prev: seq<(nat, nat)>, s: seq<nat>, k: nat)
    requires 0 < k
    requires forall t :: 0 <= t < |prev| ==> prev[t].0 < k - 1
    requires LexAscending(prev) && Ascending(s)
    ensures LexAscending(prev + Row(k - 1, s))
  {
    AppendRow(prev, Row(k - 1, s), k - 1);
  }

  /** `PairsBelow(k)` holds exactly the pairs `i < j` within reach with
      `i < k`. */
  lemma {:induction false} PairsBelowExactly(mth: Math, ps: seq<Particle>, reach: real, k: nat)
    requires k <= |ps|
    ensures PairsExactly(mth, ps, reach, PairsBelow(mth, ps, reach, k), k)
  {
    if k > 0 {
      PairsBelowExactly(mth, ps, reach, k - 1);
      NextRowMembers(mth, ps, reach, k, PairsBelow(mth, ps, reach, k - 1));
    }
  }

  /** `PairsBelow(k)` is in lexicographic order, so it holds each pair
      once. */
  lemma {:induction false} PairsBelowOrdered(mth: Math, ps: seq<Particle>, reach: real, k: nat)
    requires k <= |ps|
    ensures LexAscending(PairsBelow(mth, ps, reach, k))
    ensures forall t :: 0 <= t < |PairsBelow(mth, ps, reach, k)| ==> PairsBelow(mth, ps, reach, k)[t].0 < k
  {
    if k > 0 {
      PairsBelowOrdered(mth, ps, reach, k - 1);
      var prev := PairsBelow(mth, ps, reach, k - 1);
      var s := Neighbours(mth, ps, reach, k - 1, k, |ps|);
      assert PairsBelow(mth, ps, reach, k) == prev + Row(k - 1, s);
      NeighboursAscending(mth, ps, reach, k - 1, k, |ps|);
      NextRowOrder(prev, s, k);
    }
  }

  /** Each pair of atoms within `reach` appears exactly once, lower index
      first, and nothing else appears. */
  lemma NearPairsExactlyOnce(mth: Math, ps: seq<Particle>, reach: real)
    ensures forall i: nat, j: nat :: (i, j) in NearPairs(mth, ps, reach) <==>
      i < j < |ps| && Near(mth, ps, reach, i, j)
    ensures forall a, b :: 0 <= a < b < |NearPairs(mth, ps, reach)| ==>
      NearPairs(mth, ps, reach)[a] != NearPairs(mth, ps, reach)[b]
  {
    PairsBelowExactly(mth, ps, reach, |ps|);
    PairsBelowOrdered(mth, ps, reach, |ps|);
  }

  // ------------------------------------------------------------- collisions

  /** Two atom lists that differ at most in velocities. */
  predicate SameButVelocity(ps: seq<Particle>, qs: seq<Particle>) {
    |ps| == |qs| &&
    forall t :: 0 <= t < |ps| ==> qs[t] == ps[t].(xdot := qs[t].xdot, ydot := qs[t].ydot)
  }

  /** Changing velocities changes no distance, so no contact or link. */
  lemma SameButVelocityNear(mth: Math, ps: seq<Particle>, qs: seq<Particle>, reach: real, i: nat, j: nat)
    requires SameButVelocity(ps, qs) && i < |ps| && j < |ps|
    ensures Distance(mth, qs[i], qs[j]) == Distance(mth, ps[i], ps[j])
    ensures Near(mth, qs, reach, i, j) == Near(mth, ps, reach, i, j)
  {
    assert qs[i].x == ps[i].x && qs[i].y == ps[i].y;
    assert qs[j].x == ps[j].x && qs[j].y == ps[j].y;
    NormCongruence(mth, qs[i].x - qs[j].x, qs[i].y - qs[j].y, ps[i].x - ps[j].x, ps[i].y - ps[j].y);
  }

  /** The body of `collisions` for one partner: when atoms `i` and `j` touch,
      `i` takes `-(vx, vy)` and `j` takes `(vx, vy)`, the mean speed along the
      contact direction. */
  function Resolve(mth: Math, r: real, ps: seq<Particle>, i: nat, j: nat): (qs: seq<Particle>)
    requires i < |ps| && j < |ps| && i != j && r != 0.0
    ensures |qs| == |ps|
  {
    match Intersection(mth, r, ps[i], ps[j])
    case None => ps
    case Some(c) =>
      var newV := (Vmag(mth, ps[i]) + Vmag(mth, ps[j])) / 2.0;
      var vx := newV * c.xint / r;
      var vy := newV * c.yint / r;
      ps[i := ps[i].(xdot := -vx, ydot := -vy)][j := ps[j].(xdot := vx, ydot := vy)]
  }

  /** Resolving a pair changes the velocities of its two atoms and nothing
      else; atoms in contact leave with opposite velocities, atoms apart are
      left alone. */
  lemma ResolveEffect(mth: Math, r: real, ps: seq<Particle>, i: nat, j: nat)
    requires i < |ps| && j < |ps| && i != j && r != 0.0
    ensures var qs := Resolve(mth, r, ps, i, j);
      && SameButVelocity(ps, qs)
      && (forall t :: 0 <= t < |ps| && t != i && t != j ==> qs[t] == ps[t])
      && (Distance(mth, ps[i], ps[j]) <= 2.0 * r ==> qs[i].xdot == -qs[j].xdot && qs[i].ydot == -qs[j].ydot)
      && (Distance(mth, ps[i], ps[j]) > 2.0 * r ==> qs == ps)
  {
  }

  /** Both atoms of a resolved pair leave at the mean of their two speeds,
      `newV`: the contact offset has length `r`, so dividing it by `r` gives
      a unit vector. */
  lemma ResolveSpeeds(mth: Math, r: real, ps: seq<Particle>, i: nat, j: nat)
    requires SqrtLaw(mth) && UnitLaw(mth)
    requires i < |ps| && j < |ps| && i != j && r != 0.0 && Near(mth, ps, 2.0 * r, i, j)
    ensures var qs := Resolve(mth, r, ps, i, j);
      var v := (Vmag(mth, ps[i]) + Vmag(mth, ps[j])) / 2.0;
      Vmag(mth, qs[i]) == v && Vmag(mth, qs[j]) == v
  {
    var t := Atan2(mth, ps[j].y - ps[i].y, ps[j].x - ps[i].x);
    var v := (Vmag(mth, ps[i]) + Vmag(mth, ps[j])) / 2.0;
    var xint, yint, vx, vy := ResolvedVelocity(mth, r, ps, i, j);
    NormNonNegative(mth, ps[i].xdot, ps[i].ydot);
    NormNonNegative(mth, ps[j].xdot, ps[j].ydot);
    ContactSpeed(mth, r, v, t, xint, yint, vx, vy);
    var qs := Resolve(mth, r, ps, i, j);
    NormCongruence(mth, qs[j].xdot, qs[j].ydot, vx, vy);
    NormCongruence(mth, qs[i].xdot, qs[i].ydot, -vx, -vy);
  }

  /** The velocity a pair in contact leaves with, and the contact offset it
      is built from. */
  lemma ResolvedVelocity(mth: Math, r: real, ps: seq<Particle>, i: nat, j: nat)
      returns (xint: real, yint: real, vx: real, vy: real)
    requires i < |ps| && j < |ps| && i != j && r != 0.0 && Near(mth, ps, 2.0 * r, i, j)
    ensures var t := Atan2(mth, ps[j].y - ps[i].y, ps[j].x - ps[i].x);
      xint == r * Cos(mth, t) && yint == r * Sin(mth, t)
    ensures var v := (Vmag(mth, ps[i]) + Vmag(mth, ps[j])) / 2.0;
      vx == v * xint / r && vy == v * yint / r
    ensures var qs := Resolve(mth, r, ps, i, j);
      qs[j].xdot == vx && qs[j].ydot == vy && qs[i].xdot == -vx && qs[i].ydot == -vy
  {
    ContactOffset(mth, r, ps[i], ps[j]);
    var c := Intersection(mth, r, ps[i], ps[j]).value;
    var v := (Vmag(mth, ps[i]) + Vmag(mth, ps[j])) / 2.0;
    xint, yint := c.xint, c.yint;
    vx, vy := v * xint / r, v * yint / r;
    ResolveContact(mth, r, ps, i, j, c, vx, vy);
  }

  /** A speed `v` spread along a contact offset of length `r`: both the
      velocity and its opposite have magnitude `v`. */
  lemma ContactSpeed(mth: Math, r: real, v: real, t: real, xint: real, yint: real, vx: real, vy: real)
    requires SqrtLaw(mth) && UnitLaw(mth)
    requires r != 0.0 && 0.0 <= v
    requires xint == r * Cos(mth, t) && yint == r * Sin(mth, t)
    requires vx == v * xint / r && vy == v * yint / r
    ensures Norm(mth, vx, vy) == v && Norm(mth, -vx, -vy) == v
  {
    ScaleBack(v, r, Cos(mth, t), xint);
    ScaleBack(v, r, Sin(mth, t), yint);
    NormOfScaledUnit(mth, v, t);
    NormCongruence(mth, vx, vy, v * Cos(mth, t), v * Sin(mth, t));
    NormOfNegScaledUnit(mth, v, t, -vx, -vy);
  }

  /** `k * (r * c) / r` is `k * c`. */
  lemma ScaleBack(k: real, r: real, c: real, rc: real)
    requires r != 0.0 && rc == r * c
    ensures k * rc / r == k * c
  {
    var kc := k * c;
    assert k * rc == kc * r;
  }

  /** The pairs resolved one after another, each on the state the previous
      ones left. */
  function ResolveAll(mth: Math, r: real, ps: seq<Particle>, pairs: seq<(nat, nat)>): (qs: seq<Particle>)
    requires OrderedPairs(pairs, |ps|) && r != 0.0
    ensures |qs| == |ps|
  {
    if |pairs| == 0 then ps
    else
      var last := pairs[|pairs| - 1];
      Resolve(mth, r, ResolveAll(mth, r, ps, pairs[..|pairs| - 1]), last.0, last.1)
  }

  /** The collision pass changes velocities only. */
  lemma {:induction false} ResolveAllVelocitiesOnly(mth: Math, r: real, ps: seq<Particle>, pairs: seq<(nat, nat)>)
    requires OrderedPairs(pairs, |ps|) && r != 0.0
    ensures SameButVelocity(ps, ResolveAll(mth, r, ps, pairs))
  {
    if |pairs| > 0 {
      var last := pairs[|pairs| - 1];
      var qs0 := ResolveAll(mth, r, ps, pairs[..|pairs| - 1]);
      var qs := Resolve(mth, r, qs0, last.0, last.1);
      ResolveAllVelocitiesOnly(mth, r, ps, pairs[..|pairs| - 1]);
      ResolveEffect(mth, r, qs0, last.0, last.1);
      forall t | 0 <= t < |ps|
        ensures qs[t] == ps[t].(xdot := qs[t].xdot, ydot := qs[t].ydot)
      {
        assert qs0[t] == ps[t].(xdot := qs0[t].xdot, ydot := qs0[t].ydot);
      }
    }
  }

  lemma ResolveAllSnoc(mth: Math, r: real, ps: seq<Particle>, pairs: seq<(nat, nat)>, i: nat, j: nat)
    requires OrderedPairs(pairs, |ps|) && i < j < |ps| && r != 0.0
    ensures OrderedPairs(pairs + [(i, j)], |ps|)
    ensures ResolveAll(mth, r, ps, pairs + [(i, j)]) == Resolve(mth, r, ResolveAll(mth, r, ps, pairs), i, j)
  {
    assert (pairs + [(i, j)])[..|pairs|] == pairs;
  }

  /** An atom that touches nothing keeps its velocity through the whole
      collision pass. */
  lemma {:induction false} UntouchedKeepsVelocity(mth: Math, r: real, ps: seq<Particle>, pairs: seq<(nat, nat)>, t: nat)
    requires OrderedPairs(pairs, |ps|) && r != 0.0 && t < |ps|
    requires forall u :: 0 <= u < |pairs| ==> pairs[u].0 != t && pairs[u].1 != t
    ensures ResolveAll(mth, r, ps, pairs)[t] == ps[t]
  {
    if |pairs| > 0 {
      UntouchedKeepsVelocity(mth, r, ps, pairs[..|pairs| - 1], t);
      var last := pairs[|pairs| - 1];
      ResolveEffect(mth, r, ResolveAll(mth, r, ps, pairs[..|pairs| - 1]), last.0, last.1);
    }
  }

  /** The last resolution of a pass leaves its two atoms with opposite
      velocities. */
  lemma LastResolvedOpposite(mth: Math, r: real, ps: seq<Particle>, pairs: seq<(nat, nat)>)
    requires OrderedPairs(pairs, |ps|) && r != 0.0 && |pairs| > 0
    requires var p := pairs[|pairs| - 1]; Near(mth, ps, 2.0 * r, p.0, p.1)
    ensures var p := pairs[|pairs| - 1]; var qs := ResolveAll(mth, r, ps, pairs);
      qs[p.0].xdot == -qs[p.1].xdot && qs[p.0].ydot == -qs[p.1].ydot
  {
    var p := pairs[|pairs| - 1];
    var qs0 := ResolveAll(mth, r, ps, pairs[..|pairs| - 1]);
    ResolveAllVelocitiesOnly(mth, r, ps, pairs[..|pairs| - 1]);
    SameButVelocityNear(mth, ps, qs0, 2.0 * r, p.0, p.1);
    ResolveEffect(mth, r, qs0, p.0, p.1);
  }

  /** The pairs a row-by-row pass has handled once atom `k` has looked at the
      atoms below `j`. */
  function DoneThrough(mth: Math, ps: seq<Particle>, reach: real, k: nat, j: nat): (pairs: seq<(nat, nat)>)
    requires k < |ps| && j <= |ps|
    ensures OrderedPairs(pairs, |ps|)
  {
    PairsBelow(mth, ps, reach, k) + Row(k, Neighbours(mth, ps, reach, k, k + 1, j))
  }

  lemma DoneThroughStep(mth: Math, ps: seq<Particle>, reach: real, k: nat, j: nat)
    requires k < |ps| && j < |ps|
    ensures DoneThrough(mth, ps, reach, k, j + 1) ==
      DoneThrough(mth, ps, reach, k, j) + (if k < j && Near(mth, ps, reach, k, j) then [(k, j)] else [])
  {
    var s := Neighbours(mth, ps, reach, k, k + 1, j);
    if k < j {
      NeighboursStep(mth, ps, reach, k, k + 1, j);
      if Near(mth, ps, reach, k, j) {
        assert Row(k, s + [j]) == Row(k, s) + [(k, j)];
      }
    }
  }

  /** Atom `j` below `k` has recorded `k` among its hits exactly when the
      two touch. */
  lemma HitRecorded(mth: Math, ps: seq<Particle>, reach: real, k: nat, j: nat)
    requires j < k < |ps|
    ensures k in Neighbours(mth, ps, reach, j, j + 1, |ps|) <==> Near(mth, ps, reach, k, j)
  {
    NeighboursExactly(mth, ps, reach, j, j + 1, |ps|);
    DistanceSymmetric(mth, ps[k], ps[j]);
  }

  /** On atoms whose positions are those of `ps0`, `intersection` finds a
      contact exactly when the atoms are within `2 r` in `ps0`. */
  lemma ContactIffNear(mth: Math, r: real, ps0: seq<Particle>, ps: seq<Particle>, k: nat, j: nat)
    requires SameButVelocity(ps0, ps) && k < |ps0| && j < |ps0|
    ensures Intersection(mth, r, ps[k], ps[j]).Some? <==> Near(mth, ps0, 2.0 * r, k, j)
  {
    SameButVelocityNear(mth, ps0, ps, 2.0 * r, k, j);
  }

  /** What `Resolve` does to a pair in contact. */
  lemma ResolveContact(mth: Math, r: real, ps: seq<Particle>, i: nat, j: nat, c: Contact, vx: real, vy: real)
    requires i < |ps| && j < |ps| && i != j && r != 0.0
    requires Intersection(mth, r, ps[i], ps[j]) == Some(c)
    requires vx == (Vmag(mth, ps[i]) + Vmag(mth, ps[j])) / 2.0 * c.xint / r
    requires vy == (Vmag(mth, ps[i]) + Vmag(mth, ps[j])) / 2.0 * c.yint / r
    ensures Resolve(mth, r, ps, i, j) == ps[i := ps[i].(xdot := -vx, ydot := -vy)][j := ps[j].(xdot := vx, ydot := vy)]
  {
    var qs := Resolve(mth, r, ps, i, j);
    var us := ps[i := ps[i].(xdot := -vx, ydot := -vy)][j := ps[j].(xdot := vx, ydot := vy)];
    assert qs[i] == us[i];
    assert qs[j] == us[j];
  }

  /** Atom `k`'s loop resolves the pair with `j` exactly when `j` lies above
      `k` and the two touch: below `k`, a touching `j` has already recorded
      `k`; above `k`, `j` has recorded nothing yet. */
  lemma HitIff(mth: Math, r: real, ps0: seq<Particle>, ps: seq<Particle>, hj: seq<nat>, k: nat, j: nat)
    requires 0.0 < r && k < |ps0| && j < |ps0| && j != k
    requires SameButVelocity(ps0, ps)
    requires j < k ==> hj == Neighbours(mth, ps0, 2.0 * r, j, j + 1, |ps0|)
    requires k < j ==> hj == []
    ensures k !in hj && Intersection(mth, r, ps[k], ps[j]).Some? <==> k < j && Near(mth, ps0, 2.0 * r, k, j)
  {
    ContactIffNear(mth, r, ps0, ps, k, j);
    if j < k {
      HitRecorded(mth, ps0, 2.0 * r, k, j);
    }
  }

  /** One step of atom `k`'s loop over partners, on its hits. */
  lemma HitsStep(mth: Math, reach: real, ps0: seq<Particle>, hk: seq<nat>, hit: bool, k: nat, j: nat)
    requires k < |ps0| && j < |ps0| && j != k
    requires hk == Neighbours(mth, ps0, reach, k, k + 1, j)
    requires hit <==> k < j && Near(mth, ps0, reach, k, j)
    ensures (if hit then hk + [j] else hk) == Neighbours(mth, ps0, reach, k, k + 1, j + 1)
  {
  }

  /** The pair `(k, j)` resolved when `hit`, the atoms unchanged otherwise. */
  function ResolveIf(mth: Math, r: real, ps: seq<Particle>, hit: bool, k: nat, j: nat): seq<Particle>
    requires k < |ps| && j < |ps| && k != j && r != 0.0
  {
    if hit then Resolve(mth, r, ps, k, j) else ps
  }

  /** One step of atom `k`'s loop over partners, on the atoms, for any list
      `done` of pairs already resolved. */
  lemma ResolveStep(mth: Math, r: real, ps0: seq<Particle>, ps: seq<Particle>, done: seq<(nat, nat)>, next: seq<(nat, nat)>, hit: bool, k: nat, j: nat)
    requires 0.0 < r && k < |ps0| && j < |ps0| && j != k
    requires OrderedPairs(done, |ps0|)
    requires ps == ResolveAll(mth, r, ps0, done)
    requires hit <==> k < j && Near(mth, ps0, 2.0 * r, k, j)
    requires next == done + (if k < j && Near(mth, ps0, 2.0 * r, k, j) then [(k, j)] else [])
    ensures OrderedPairs(next, |ps0|) && |ps| == |ps0|
    ensures ResolveIf(mth, r, ps, hit, k, j) == ResolveAll(mth, r, ps0, next)
  {
    if hit {
      ResolveAllSnoc(mth, r, ps0, done, k, j);
    } else {
      assert next == done;
    }
  }

  /** Whether atom `k`'s loop resolves the pair with `j`: `j` has not
      recorded `k` as a hit, and `intersection` finds a contact. */
  predicate Hits(mth: Math, r: real, ps: seq<Particle>, hj: seq<nat>, k: nat, j: nat)
    requires k < |ps| && j < |ps|
  {
    k !in hj && Intersection(mth, r, ps[k], ps[j]).Some?
  }

  /** The atoms after atom `k`'s loop has dealt with partner `j`. */
  function PartnerAtoms(mth: Math, r: real, ps: seq<Particle>, hj: seq<nat>, k: nat, j: nat): seq<Particle>
    requires k < |ps| && j < |ps| && k != j && r != 0.0
  {
    ResolveIf(mth, r, ps, Hits(mth, r, ps, hj, k, j), k, j)
  }

  /** Atom `k`'s hits after its loop has dealt with partner `j`. */
  function PartnerHits(mth: Math, r: real, ps: seq<Particle>, hk: seq<nat>, hj: seq<nat>, k: nat, j: nat): seq<nat>
    requires k < |ps| && j < |ps|
  {
    if Hits(mth, r, ps, hj, k, j) then hk + [j] else hk
  }

  /** When `intersection` finds no contact, or the partner has already
      recorded `k`, neither the atoms nor atom `k`'s hits change; otherwise
      the partner is recorded and the two atoms leave with opposite
      velocities. */
  lemma PartnerEffect(mth: Math, r: real, ps: seq<Particle>, hk: seq<nat>, hj: seq<nat>, k: nat, j: nat)
    requires k < |ps| && j < |ps| && k != j && r != 0.0
    ensures var qs := PartnerAtoms(mth, r, ps, hj, k, j);
      var hk' := PartnerHits(mth, r, ps, hk, hj, k, j);
      && (k in hj || Intersection(mth, r, ps[k], ps[j]).None? ==> qs == ps && hk' == hk)
      && (k !in hj && Intersection(mth, r, ps[k], ps[j]).Some? ==>
            && hk' == hk + [j]
            && qs[k].xdot == -qs[j].xdot && qs[k].ydot == -qs[j].ydot
            && (forall t :: 0 <= t < |ps| && t != k && t != j ==> qs[t] == ps[t]))
  {
    ResolveEffect(mth, r, ps, k, j);
  }

  /** The body of the loop in `collisions` run by atom `k`, for partner `j`. */
  method CollideWith(mth: Math, r: real, atoms: array<Particle>, hits: array<seq<nat>>, k: nat, j: nat)
    requires 0.0 < r && atoms.Length == hits.Length && k < atoms.Length && j < atoms.Length && j != k
    modifies atoms, hits
    ensures atoms[..] == PartnerAtoms(mth, r, old(atoms[..]), old(hits[j]), k, j)
    ensures hits[..] == old(hits[..])[k := PartnerHits(mth, r, old(atoms[..]), old(hits[k]), old(hits[j]), k, j)]
  {
    if k !in hits[j] {
      var c := Intersection(mth, r, atoms[k], atoms[j]);
      if c.Some? {
        ghost var ps := atoms[..];
        hits[k] := hits[k] + [j];
        var newV := (Vmag(mth, atoms[k]) + Vmag(mth, atoms[j])) / 2.0;
        var vx := newV * c.value.xint / r;
        var vy := newV * c.value.yint / r;
        ResolveContact(mth, r, ps, k, j, c.value, vx, vy);
        atoms[k] := atoms[k].(xdot := -vx, ydot := -vy);
        atoms[j] := atoms[j].(xdot := vx, ydot := vy);
        assert atoms[..] == ps[k := ps[k].(xdot := -vx, ydot := -vy)][j := ps[j].(xdot := vx, ydot := vy)];
      }
    }
  }

  /** The hit lists once atoms below `k` have run `collisions`: each holds
      its touching partners above it, and the others are empty. */
  predicate RowsDone(mth: Math, ps0: seq<Particle>, reach: real, hs: seq<seq<nat>>, k: nat)
    requires |hs| == |ps0| && k <= |ps0|
  {
    && (forall t :: 0 <= t < k ==> hs[t] == Neighbours(mth, ps0, reach, t, t + 1, |ps0|))
    && (forall t :: k <= t < |hs| ==> hs[t] == [])
  }

  /** The hit lists once atom `k` has looked at the atoms below `j`. */
  predicate HitsThrough(mth: Math, ps0: seq<Particle>, reach: real, hs: seq<seq<nat>>, k: nat, j: nat)
    requires |hs| == |ps0| && k < |ps0| && j <= |ps0|
  {
    && (forall t :: 0 <= t < k ==> hs[t] == Neighbours(mth, ps0, reach, t, t + 1, |ps0|))
    && hs[k] == Neighbours(mth, ps0, reach, k, k + 1, j)
    && (forall t :: k < t < |hs| ==> hs[t] == [])
  }

  /** The state of the collision pass once atoms below `k` have run
      `collisions`: their hit lists, and the atoms as the fold of `Resolve`
      over their rows. */
  predicate RowsState(mth: Math, r: real, ps0: seq<Particle>, ps: seq<Particle>, hs: seq<seq<nat>>, k: nat)
    requires 0.0 < r && |hs| == |ps0| && k <= |ps0|
  {
    && RowsDone(mth, ps0, 2.0 * r, hs, k)
    && ps == ResolveAll(mth, r, ps0, PairsBelow(mth, ps0, 2.0 * r, k))
  }

  /** The state of atom `k`'s loop once it has looked at the atoms below
      `j`: the hit lists so far, and the atoms as the fold of `Resolve`
      over the pairs done so far. */
  predicate RowState(mth: Math, r: real, ps0: seq<Particle>, ps: seq<Particle>, hs: seq<seq<nat>>, k: nat, j: nat)
    requires 0.0 < r && |hs| == |ps0| && k < |ps0| && j <= |ps0|
  {
    && HitsThrough(mth, ps0, 2.0 * r, hs, k, j)
    && ps == ResolveAll(mth, r, ps0, DoneThrough(mth, ps0, 2.0 * r, k, j))
  }

  /** Atom `k`'s loop starts where the rows below it left off. */
  lemma RowStart(mth: Math, r: real, ps0: seq<Particle>, ps: seq<Particle>, hs: seq<seq<nat>>, k: nat)
    requires 0.0 < r && |hs| == |ps0| && k < |ps0|
    requires RowsState(mth, r, ps0, ps, hs, k)
    ensures RowState(mth, r, ps0, ps, hs, k, 0)
  {
    assert DoneThrough(mth, ps0, 2.0 * r, k, 0) == PairsBelow(mth, ps0, 2.0 * r, k);
  }

  /** Atom `k`'s loop ends where the next row starts. */
  lemma RowEnd(mth: Math, r: real, ps0: seq<Particle>, ps: seq<Particle>, hs: seq<seq<nat>>, k: nat)
    requires 0.0 < r && |hs| == |ps0| && k < |ps0|
    requires RowState(mth, r, ps0, ps, hs, k, |ps0|)
    ensures RowsState(mth, r, ps0, ps, hs, k + 1)
  {
    assert DoneThrough(mth, ps0, 2.0 * r, k, |ps0|) == PairsBelow(mth, ps0, 2.0 * r, k + 1);
  }

  /** Atom `k` skips itself. */
  lemma SkipSelf(mth: Math, r: real, ps0: seq<Particle>, ps: seq<Particle>, hs: seq<seq<nat>>, k: nat)
    requires 0.0 < r && |hs| == |ps0| && k < |ps0|
    requires RowState(mth, r, ps0, ps, hs, k, k)
    ensures RowState(mth, r, ps0, ps, hs, k, k + 1)
  {
    assert Neighbours(mth, ps0, 2.0 * r, k, k + 1, k + 1) == Neighbours(mth, ps0, 2.0 * r, k, k + 1, k);
    assert DoneThrough(mth, ps0, 2.0 * r, k, k + 1) == DoneThrough(mth, ps0, 2.0 * r, k, k);
  }

  /** One pass of atom `k`'s loop keeps the row-by-row description of
      the atoms. */
  lemma CollideStep(mth: Math, r: real, ps0: seq<Particle>, ps: seq<Particle>, hit: bool, k: nat, j: nat)
    requires 0.0 < r && k < |ps0| && j < |ps0| && j != k
    requires ps == ResolveAll(mth, r, ps0, DoneThrough(mth, ps0, 2.0 * r, k, j))
    requires hit <==> k < j && Near(mth, ps0, 2.0 * r, k, j)
    ensures |ps| == |ps0|
    ensures ResolveIf(mth, r, ps, hit, k, j) == ResolveAll(mth, r, ps0, DoneThrough(mth, ps0, 2.0 * r, k, j + 1))
  {
    ghost var done := DoneThrough(mth, ps0, 2.0 * r, k, j);
    ghost var next := DoneThrough(mth, ps0, 2.0 * r, k, j + 1);
    DoneThroughStep(mth, ps0, 2.0 * r, k, j);
    ResolveStep(mth, r, ps0, ps, done, next, hit, k, j);
  }

  /** One pass of atom `k`'s loop keeps the row-by-row description of
      the hit lists. */
  lemma HitsThroughStep(mth: Math, r: real, ps0: seq<Particle>, ps: seq<Particle>, hs: seq<seq<nat>>, k: nat, j: nat)
    requires 0.0 < r && |hs| == |ps0| && k < |ps0| && j < |ps0| && j != k
    requires HitsThrough(mth, ps0, 2.0 * r, hs, k, j)
    requires SameButVelocity(ps0, ps)
    ensures Hits(mth, r, ps, hs[j], k, j) <==> k < j && Near(mth, ps0, 2.0 * r, k, j)
    ensures HitsThrough(mth, ps0, 2.0 * r, hs[k := PartnerHits(mth, r, ps, hs[k], hs[j], k, j)], k, j + 1)
  {
    HitIff(mth, r, ps0, ps, hs[j], k, j);
    HitsStep(mth, 2.0 * r, ps0, hs[k], Hits(mth, r, ps, hs[j], k, j), k, j);
  }

  /** One pass of atom `k`'s loop keeps the row-by-row description. */
  lemma PartnerStep(mth: Math, r: real, ps0: seq<Particle>, ps: seq<Particle>, hs: seq<seq<nat>>, k: nat, j: nat)
    requires 0.0 < r && |hs| == |ps0| && k < |ps0| && j < |ps0| && j != k
    requires RowState(mth, r, ps0, ps, hs, k, j)
    ensures |ps| == |ps0|
    ensures RowState(mth, r, ps0, PartnerAtoms(mth, r, ps, hs[j], k, j), hs[k := PartnerHits(mth, r, ps, hs[k], hs[j], k, j)], k, j + 1)
  {
    ResolveAllVelocitiesOnly(mth, r, ps0, DoneThrough(mth, ps0, 2.0 * r, k, j));
    HitsThroughStep(mth, r, ps0, ps, hs, k, j);
    CollideStep(mth, r, ps0, ps, Hits(mth, r, ps, hs[j], k, j), k, j);
  }

  /** One pass of atom `k`'s loop over `j`: atom `k` itself is skipped,
      any other atom is handled by `CollideWith`; either way the row-by-row
      description advances to `j + 1`. */
  method CollideNext(mth: Math, r: real, atoms: array<Particle>, hits: array<seq<nat>>, k: nat, j: nat, ghost ps0: seq<Particle>)
    requires 0.0 < r && atoms.Length == hits.Length == |ps0| && k < |ps0| && j < |ps0|
    requires RowState(mth, r, ps0, atoms[..], hits[..], k, j)
    modifies atoms, hits
    ensures RowState(mth, r, ps0, atoms[..], hits[..], k, j + 1)
  {
    if j == k {
      SkipSelf(mth, r, ps0, atoms[..], hits[..], k);
    } else {
      PartnerStep(mth, r, ps0, atoms[..], hits[..], k, j);
      CollideWith(mth, r, atoms, hits, k, j);
    }
  }

  /** `collisions(atoms)` run by atom `k`: for every other atom `j` that has
      not already recorded `k` as a hit and that touches `k`, record `j` in
      `k`'s hits and resolve the pair. */
  method CollideRow(mth: Math, r: real, atoms: array<Particle>, hits: array<seq<nat>>, k: nat, ghost ps0: seq<Particle>)
    requires 0.0 < r && atoms.Length == hits.Length == |ps0| && k < |ps0|
    requires RowsState(mth, r, ps0, atoms[..], hits[..], k)
    modifies atoms, hits
    ensures RowsState(mth, r, ps0, atoms[..], hits[..], k + 1)
  {
    RowStart(mth, r, ps0, atoms[..], hits[..], k);
    CollideLoop(mth, r, atoms, hits, k, ps0);
    RowEnd(mth, r, ps0, atoms[..], hits[..], k);
  }

  /** The loop over `j` in `collisions(atoms)` run by atom `k`. */
  method CollideLoop(mth: Math, r: real, atoms: array<Particle>, hits: array<seq<nat>>, k: nat, ghost ps0: seq<Particle>)
    requires 0.0 < r && atoms.Length == hits.Length == |ps0| && k < |ps0|
    requires RowState(mth, r, ps0, atoms[..], hits[..], k, 0)
    modifies atoms, hits
    ensures RowState(mth, r, ps0, atoms[..], hits[..], k, |ps0|)
  {
    ghost var ps := atoms[..];
    ghost var hs := hits[..];
    for j := 0 to atoms.Length
      invariant ps == atoms[..] && hs == hits[..]
      invariant RowState(mth, r, ps0, ps, hs, k, j)
    {
      CollideNext(mth, r, atoms, hits, k, j, ps0);
      ps, hs := atoms[..], hits[..];
    }
  }

  /** The collision pass starts with no rows done. */
  lemma PassStart(mth: Math, r: real, ps0: seq<Particle>, hs: seq<seq<nat>>)
    requires 0.0 < r && |hs| == |ps0|
    requires forall t :: 0 <= t < |hs| ==> hs[t] == []
    ensures RowsState(mth, r, ps0, ps0, hs, 0)
  {
  }

  /** Once every row is done, the atoms are the fold of `Resolve` over all
      touching pairs and each hit list holds its atom's partners above it. */
  lemma PassEnd(mth: Math, r: real, ps0: seq<Particle>, ps: seq<Particle>, hs: seq<seq<nat>>)
    requires 0.0 < r && |hs| == |ps0|
    requires RowsState(mth, r, ps0, ps, hs, |ps0|)
    ensures ps == ResolveAll(mth, r, ps0, NearPairs(mth, ps0, 2.0 * r))
    ensures forall t :: 0 <= t < |hs| ==> hs[t] == Neighbours(mth, ps0, 2.0 * r, t, t + 1, |hs|)
  {
  }

  /** The collision pass: every atom runs `collisions` in index order, with
      all hit lists empty at the start. Each touching pair is resolved once,
      by its lower index, in lexicographic order; afterwards atom `k`'s hits
      are its touching partners above `k`. */
  method Collisions(mth: Math, r: real, atoms: array<Particle>, hits: array<seq<nat>>)
    requires 0.0 < r && atoms.Length == hits.Length
    requires forall t :: 0 <= t < hits.Length ==> hits[t] == []
    modifies atoms, hits
    ensures atoms[..] == ResolveAll(mth, r, old(atoms[..]), NearPairs(mth, old(atoms[..]), 2.0 * r))
    ensures forall t :: 0 <= t < hits.Length ==>
      hits[t] == Neighbours(mth, old(atoms[..]), 2.0 * r, t, t + 1, hits.Length)
  {
    ghost var ps0 := atoms[..];
    ghost var ps, hs := ps0, hits[..];
    PassStart(mth, r, ps0, hs);
    for k := 0 to atoms.Length
      invariant ps == atoms[..] && hs == hits[..]
      invariant RowsState(mth, r, ps0, ps, hs, k)
    {
      CollideRow(mth, r, atoms, hits, k, ps0);
      ps, hs := atoms[..], hits[..];
    }
    PassEnd(mth, r, ps0, ps, hs);
    assert forall t :: 0 <= t < hits.Length ==> hits[t] == hs[t];
  }

  // ------------------------------------------------------------------ links

  /** The line `renderArms` draws for the pair `(i, j)`: rim to rim, in the
      link colour with alpha faded by distance. */
  function LinkCmd(mth: Math, prm: Params, ps: seq<Particle>, i: nat, j: nat): DrawCmd
    requires i < |ps| && j < |ps| && prm.armlen != 0.0
  {
    Line(Rims(mth, prm.r, ps[i], ps[j]),
      prm.armColor.(alpha := Alpha(prm.armColor.alpha, Distance(mth, ps[i], ps[j]), prm.armlen)))
  }

  function LinkCmds(mth: Math, prm: Params, ps: seq<Particle>, pairs: seq<(nat, nat)>): (cmds: seq<DrawCmd>)
    requires OrderedPairs(pairs, |ps|) && prm.armlen != 0.0
    ensures |cmds| == |pairs|
    ensures forall t :: 0 <= t < |pairs| ==> cmds[t] == LinkCmd(mth, prm, ps, pairs[t].0, pairs[t].1)
  {
    seq(|pairs|, t requires 0 <= t < |pairs| => LinkCmd(mth, prm, ps, pairs[t].0, pairs[t].1))
  }

  lemma LinkCmdsAppend(mth: Math, prm: Params, ps: seq<Particle>, pairs: seq<(nat, nat)>, more: seq<(nat, nat)>)
    requires OrderedPairs(pairs, |ps|) && OrderedPairs(more, |ps|) && prm.armlen != 0.0
    ensures OrderedPairs(pairs + more, |ps|)
    ensures LinkCmds(mth, prm, ps, pairs + more) == LinkCmds(mth, prm, ps, pairs) + LinkCmds(mth, prm, ps, more)
  {
    var all := LinkCmds(mth, prm, ps, pairs + more);
    var parts := LinkCmds(mth, prm, ps, pairs) + LinkCmds(mth, prm, ps, more);
    forall t | 0 <= t < |all|
      ensures all[t] == parts[t]
    {
      if t >= |pairs| {
        assert (pairs + more)[t] == more[t - |pairs|];
      }
    }
  }

  /** Every pair of atoms within `armlen` gets exactly one line, drawn by its
      lower index, with the pair's rim-to-rim segment; nothing else is drawn. */
  lemma LinksExactlyOnce(mth: Math, prm: Params, ps: seq<Particle>)
    requires prm.armlen != 0.0
    ensures var pairs := NearPairs(mth, ps, prm.armlen);
      var cmds := LinkCmds(mth, prm, ps, pairs);
      && (forall i: nat, j: nat :: (i, j) in pairs <==> i < j < |ps| && Distance(mth, ps[i], ps[j]) <= prm.armlen)
      && (forall a, b :: 0 <= a < b < |pairs| ==> pairs[a] != pairs[b])
      && |cmds| == |pairs|
      && (forall t :: 0 <= t < |cmds| ==>
            cmds[t].Line? && cmds[t].seg == Rims(mth, prm.r, ps[pairs[t].0], ps[pairs[t].1]))
  {
    NearPairsExactlyOnce(mth, ps, prm.armlen);
  }

  /** The body of the loop in `renderArms` run by atom `k`, for partner `j`:
      `arm` records `j` when in range, and the line is drawn only when `j`
      has not already recorded `k`. */
  method LinkWith(mth: Math, prm: Params, ps: seq<Particle>, arms: array<seq<nat>>, k: nat, j: nat, cmds0: seq<DrawCmd>)
    returns (cmds: seq<DrawCmd>)
    requires 0.0 < prm.armlen && |ps| == arms.Length && k < |ps| && j < |ps| && j != k
    requires arms[k] == Neighbours(mth, ps, prm.armlen, k, 0, j)
    requires forall t :: 0 <= t < k ==> arms[t] == Neighbours(mth, ps, prm.armlen, t, 0, |ps|)
    requires forall t :: k < t < arms.Length ==> arms[t] == []
    requires cmds0 == LinkCmds(mth, prm, ps, DoneThrough(mth, ps, prm.armlen, k, j))
    modifies arms
    ensures arms[k] == Neighbours(mth, ps, prm.armlen, k, 0, j + 1)
    ensures forall t :: 0 <= t < arms.Length && t != k ==> arms[t] == old(arms[t])
    ensures cmds == LinkCmds(mth, prm, ps, DoneThrough(mth, ps, prm.armlen, k, j + 1))
  {
    ghost var done := DoneThrough(mth, ps, prm.armlen, k, j);
    DistanceSymmetric(mth, ps[k], ps[j]);
    DoneThroughStep(mth, ps, prm.armlen, k, j);
    NeighboursStep(mth, ps, prm.armlen, k, 0, j);
    if j < k {
      NeighboursExactly(mth, ps, prm.armlen, j, 0, |ps|);
    }
    cmds := cmds0;
    var arm := ArmSegment(mth, prm.r, prm.armlen, ps[k], ps[j]);
    if arm.Some? {
      arms[k] := arms[k] + [j];
    }
    if k !in arms[j] {
      if arm.Some? {
        var alpha := Alpha(prm.armColor.alpha, Distance(mth, ps[k], ps[j]), prm.armlen);
        cmds := cmds + [Line(arm.value, prm.armColor.(alpha := alpha))];
        LinkCmdsAppend(mth, prm, ps, done, [(k, j)]);
      }
    }
  }

  /** One pass of the loop in `renderArms` run by atom `k`: atom `k` itself
      is skipped, any other atom is handled by `LinkWith`. */
  method LinkNext(mth: Math, prm: Params, ps: seq<Particle>, arms: array<seq<nat>>, k: nat, j: nat, cmds0: seq<DrawCmd>)
    returns (cmds: seq<DrawCmd>)
    requires 0.0 < prm.armlen && |ps| == arms.Length && k < |ps| && j < |ps|
    requires arms[k] == Neighbours(mth, ps, prm.armlen, k, 0, j)
    requires forall t :: 0 <= t < k ==> arms[t] == Neighbours(mth, ps, prm.armlen, t, 0, |ps|)
    requires forall t :: k < t < arms.Length ==> arms[t] == []
    requires cmds0 == LinkCmds(mth, prm, ps, DoneThrough(mth, ps, prm.armlen, k, j))
    modifies arms
    ensures arms[k] == Neighbours(mth, ps, prm.armlen, k, 0, j + 1)
    ensures forall t :: 0 <= t < arms.Length && t != k ==> arms[t] == old(arms[t])
    ensures cmds == LinkCmds(mth, prm, ps, DoneThrough(mth, ps, prm.armlen, k, j + 1))
  {
    if j == k {
      NeighboursStep(mth, ps, prm.armlen, k, 0, j);
      DoneThroughStep(mth, ps, prm.armlen, k, j);
      cmds := cmds0;
    } else {
      cmds := LinkWith(mth, prm, ps, arms, k, j, cmds0);
    }
  }

  /** `renderArms` run by atom `k`. */
  method LinkRow(mth: Math, prm: Params, ps: seq<Particle>, arms: array<seq<nat>>, k: nat, cmds0: seq<DrawCmd>)
    returns (cmds: seq<DrawCmd>)
    requires 0.0 < prm.armlen && |ps| == arms.Length && k < |ps|
    requires forall t :: 0 <= t < k ==> arms[t] == Neighbours(mth, ps, prm.armlen, t, 0, |ps|)
    requires forall t :: k <= t < arms.Length ==> arms[t] == []
    requires cmds0 == LinkCmds(mth, prm, ps, PairsBelow(mth, ps, prm.armlen, k))
    modifies arms
    ensures forall t :: 0 <= t <= k ==> arms[t] == Neighbours(mth, ps, prm.armlen, t, 0, |ps|)
    ensures forall t :: k < t < arms.Length ==> arms[t] == []
    ensures cmds == LinkCmds(mth, prm, ps, PairsBelow(mth, ps, prm.armlen, k + 1))
  {
    assert DoneThrough(mth, ps, prm.armlen, k, 0) == PairsBelow(mth, ps, prm.armlen, k);
    cmds := cmds0;
    for j := 0 to |ps|
      invariant arms[k] == Neighbours(mth, ps, prm.armlen, k, 0, j)
      invariant forall t :: 0 <= t < arms.Length && t != k ==> arms[t] == old(arms[t])
      invariant cmds == LinkCmds(mth, prm, ps, DoneThrough(mth, ps, prm.armlen, k, j))
    {
      cmds := LinkNext(mth, prm, ps, arms, k, j, cmds);
    }
    assert DoneThrough(mth, ps, prm.armlen, k, |ps|) == PairsBelow(mth, ps, prm.armlen, k + 1);
  }

  /** The link pass: every atom runs `renderArms` in index order, with all
      arm lists empty at the start. It draws `LinkCmds` of the in-range pairs
      and leaves in atom `k`'s arms every atom within `armlen` of it. */
  method RenderArms(mth: Math, prm: Params, ps: seq<Particle>, arms: array<seq<nat>>)
    returns (cmds: seq<DrawCmd>)
    requires 0.0 < prm.armlen && |ps| == arms.Length
    requires forall t :: 0 <= t < arms.Length ==> arms[t] == []
    modifies arms
    ensures cmds == LinkCmds(mth, prm, ps, NearPairs(mth, ps, prm.armlen))
    ensures forall t :: 0 <= t < arms.Length ==> arms[t] == Neighbours(mth, ps, prm.armlen, t, 0, arms.Length)
  {
    cmds := [];
    assert LinkCmds(mth, prm, ps, PairsBelow(mth, ps, prm.armlen, 0)) == [];
    for k := 0 to |ps|
      invariant cmds == LinkCmds(mth, prm, ps, PairsBelow(mth, ps, prm.armlen, k))
      invariant forall t :: 0 <= t < k ==> arms[t] == Neighbours(mth, ps, prm.armlen, t, 0, |ps|)
      invariant forall t :: k <= t < arms.Length ==> arms[t] == []
    {
      cmds := LinkRow(mth, prm, ps, arms, k, cmds);
    }
    assert NearPairs(mth, ps, prm.armlen) == PairsBelow(mth, ps, prm.armlen, |ps|);
  }

  // ------------------------------------------------------------ integration

  function IntegrateAll(mth: Math, prm: Params, ps: seq<Particle>, dt: real, vlimit: real): (qs: seq<Particle>)
    ensures |qs| == |ps|
    ensures forall t :: 0 <= t < |ps| ==> qs[t] == Integrate(mth, prm, ps[t], dt, vlimit)
  {
    seq(|ps|, t requires 0 <= t < |ps| => Integrate(mth, prm, ps[t], dt, vlimit))
  }

  /** The disc `render` draws for each atom, at its new position. */
  function Discs(prm: Params, ps: seq<Particle>): (cmds: seq<DrawCmd>)
    ensures |cmds| == |ps|
    ensures forall t :: 0 <= t < |ps| ==> cmds[t] == Disc(ps[t].x, ps[t].y, prm.r, prm.atomColor)
  {
    seq(|ps|, t requires 0 <= t < |ps| => Disc(ps[t].x, ps[t].y, prm.r, prm.atomColor))
  }

  /** The integration pass: every atom runs the physics of `render` and draws
      its disc. */
  method Integration(mth: Math, prm: Params, atoms: array<Particle>, dt: real, vlimit: real)
    returns (cmds: seq<DrawCmd>)
    modifies atoms
    ensures atoms[..] == IntegrateAll(mth, prm, old(atoms[..]), dt, vlimit)
    ensures cmds == Discs(prm, atoms[..])
  {
    cmds := [];
    for i := 0 to atoms.Length
      invariant forall t :: 0 <= t < i ==> atoms[t] == Integrate(mth, prm, old(atoms[t]), dt, vlimit)
      invariant forall t :: i <= t < atoms.Length ==> atoms[t] == old(atoms[t])
      invariant cmds == Discs(prm, atoms[..i])
    {
      atoms[i] := Integrate(mth, prm, atoms[i], dt, vlimit);
      cmds := cmds + [Disc(atoms[i].x, atoms[i].y, prm.r, prm.atomColor)];
      assert atoms[..i + 1] == atoms[..i] + [atoms[i]];
    }
    assert atoms[..] == atoms[..atoms.Length];
  }

  /** The clearing pass: `clearArms` and `clearHits` for every atom. */
  method ClearTransients(hits: array<seq<nat>>, arms: array<seq<nat>>)
    requires hits != arms
    modifies hits, arms
    ensures forall t :: 0 <= t < hits.Length ==> hits[t] == []
    ensures forall t :: 0 <= t < arms.Length ==> arms[t] == []
  {
    for i := 0 to hits.Length
      invariant forall t :: 0 <= t < i ==> hits[t] == []
    {
      hits[i] := [];
    }
    for i := 0 to arms.Length
      invariant forall t :: 0 <= t < i ==> arms[t] == []
      invariant forall t :: 0 <= t < hits.Length ==> hits[t] == []
    {
      arms[i] := [];
    }
  }

  // ------------------------------------------------------------- generation

  /** The atoms the generation loop spawns from the sampled positions and
      velocities, all cruising. */
  function Spawned(init: seq<(real, real, real, real)>): (ps: seq<Particle>)
    ensures |ps| == |init|
    ensures forall amax: real :: 0.0 <= amax ==> AllBurstOk(ps, amax)
  {
    seq(|init|, t requires 0 <= t < |init| => Spawn(init[t].0, init[t].1, init[t].2, init[t].3))
  }

  /** The generation loop: one new atom per sample. */
  method SpawnAll(init: seq<(real, real, real, real)>) returns (a: array<Particle>)
    ensures fresh(a)
    ensures a[..] == Spawned(init)
  {
    a := new Particle[|init|];
    for i := 0 to |init|
      invariant forall t :: 0 <= t < i ==> a[t] == Spawn(init[t].0, init[t].1, init[t].2, init[t].3)
    {
      a[i] := Spawn(init[i].0, init[i].1, init[i].2, init[i].3);
    }
  }

  /** The empty `_hits` and `_arms` lists of `n` new atoms. */
  method EmptyLists(n: nat) returns (hits: array<seq<nat>>, arms: array<seq<nat>>)
    ensures fresh(hits) && fresh(arms) && hits != arms
    ensures hits.Length == n && arms.Length == n
    ensures forall t :: 0 <= t < n ==> hits[t] == [] && arms[t] == []
  {
    hits := new seq<nat>[n](_ => []);
    arms := new seq<nat>[n](_ => []);
  }

  // ------------------------------------------------------------- the tick

  /** Every atom's `_hits` after the collision pass on `ps`: its touching
      partners above it. */
  function HitLists(mth: Math, ps: seq<Particle>, reach: real): (hs: seq<seq<nat>>)
    ensures |hs| == |ps|
    ensures forall t :: 0 <= t < |ps| ==> hs[t] == Neighbours(mth, ps, reach, t, t + 1, |ps|)
  {
    seq(|ps|, t requires 0 <= t < |ps| => Neighbours(mth, ps, reach, t, t + 1, |ps|))
  }

  /** Every atom's `_arms` after the link pass on `ps`: all the atoms in
      range of it, whether or not it drew their line. */
  function ArmLists(mth: Math, ps: seq<Particle>, reach: real): (hs: seq<seq<nat>>)
    ensures |hs| == |ps|
    ensures forall t :: 0 <= t < |ps| ==> hs[t] == Neighbours(mth, ps, reach, t, 0, |ps|)
  {
    seq(|ps|, t requires 0 <= t < |ps| => Neighbours(mth, ps, reach, t, 0, |ps|))
  }

  /** What a tick produces once the pointer pass is done: the atoms, the
      drawing, and the per-atom hit and arm lists. */
  datatype Frame = Frame(atoms: seq<Particle>, cmds: seq<DrawCmd>, hits: seq<seq<nat>>, arms: seq<seq<nat>>)

  /** Collisions, then links, then integration, each pass seeing the atoms
      the previous one left; lines are drawn before discs. */
  function AfterPointer(mth: Math, prm: Params, ps: seq<Particle>, dt: real, vlimit: real): (f: Frame)
    requires ParamsOk(prm)
    ensures |f.atoms| == |ps|
  {
    var collided := ResolveAll(mth, prm.r, ps, NearPairs(mth, ps, 2.0 * prm.r));
    var links := LinkCmds(mth, prm, collided, NearPairs(mth, collided, prm.armlen));
    var moved := IntegrateAll(mth, prm, collided, dt, vlimit);
    Frame(moved, links + Discs(prm, moved), HitLists(mth, ps, 2.0 * prm.r), ArmLists(mth, collided, prm.armlen))
  }

  /** The last three loops of a tick: collisions, links, integration, over
      freshly cleared lists. The atoms, the drawing and the lists are the
      frame `AfterPointer` specifies. */
  method AfterPointerPasses(mth: Math, prm: Params, atoms: array<Particle>, hits: array<seq<nat>>, arms: array<seq<nat>>, dt: real, vlimit: real)
    returns (cmds: seq<DrawCmd>)
    requires ParamsOk(prm) && hits != arms && atoms.Length == hits.Length == arms.Length
    requires forall t :: 0 <= t < hits.Length ==> hits[t] == []
    requires forall t :: 0 <= t < arms.Length ==> arms[t] == []
    modifies atoms, hits, arms
    ensures var f := AfterPointer(mth, prm, old(atoms[..]), dt, vlimit);
      atoms[..] == f.atoms && cmds == f.cmds && hits[..] == f.hits && arms[..] == f.arms
  {
    ghost var ps := atoms[..];
    var lines := CollideAndLink(mth, prm, atoms, hits, arms);
    ghost var collided, hs, ars := atoms[..], hits[..], arms[..];
    var discs := Integration(mth, prm, atoms, dt, vlimit);
    assert hits[..] == hs && arms[..] == ars;
    cmds := lines + discs;
    AfterPointerFrame(mth, prm, ps, dt, vlimit, collided, atoms[..], lines, discs, hs, ars);
  }

  /** The collision loop, then the link loop. */
  method CollideAndLink(mth: Math, prm: Params, atoms: array<Particle>, hits: array<seq<nat>>, arms: array<seq<nat>>)
    returns (lines: seq<DrawCmd>)
    requires ParamsOk(prm) && hits != arms && atoms.Length == hits.Length == arms.Length
    requires forall t :: 0 <= t < hits.Length ==> hits[t] == []
    requires forall t :: 0 <= t < arms.Length ==> arms[t] == []
    modifies atoms, hits, arms
    ensures atoms[..] == ResolveAll(mth, prm.r, old(atoms[..]), NearPairs(mth, old(atoms[..]), 2.0 * prm.r))
    ensures lines == LinkCmds(mth, prm, atoms[..], NearPairs(mth, atoms[..], prm.armlen))
    ensures hits[..] == HitLists(mth, old(atoms[..]), 2.0 * prm.r)
    ensures arms[..] == ArmLists(mth, atoms[..], prm.armlen)
  {
    Collisions(mth, prm.r, atoms, hits);
    lines := RenderArms(mth, prm, atoms[..], arms);
    assert hits[..] == HitLists(mth, old(atoms[..]), 2.0 * prm.r);
    assert arms[..] == ArmLists(mth, atoms[..], prm.armlen);
  }

  predicate AllBurstOk(ps: seq<Particle>, amax: real) {
    forall t :: 0 <= t < |ps| ==> BurstOk(ps[t], amax)
  }

  /** The collision pass keeps every atom's burst invariant: it only
      changes velocities. */
  lemma ResolveAllKeepsBurstOk(mth: Math, r: real, ps: seq<Particle>, pairs: seq<(nat, nat)>, amax: real)
    requires OrderedPairs(pairs, |ps|) && r != 0.0 && AllBurstOk(ps, amax)
    ensures AllBurstOk(ResolveAll(mth, r, ps, pairs), amax)
  {
    var qs := ResolveAll(mth, r, ps, pairs);
    ResolveAllVelocitiesOnly(mth, r, ps, pairs);
    forall t | 0 <= t < |qs|
      ensures BurstOk(qs[t], amax)
    {
      assert qs[t].a == ps[t].a && qs[t].isAcc == ps[t].isAcc;
    }
  }

  /** The integration pass keeps every atom's burst invariant. */
  lemma IntegrateAllKeepsBurstOk(mth: Math, prm: Params, ps: seq<Particle>, dt: real, vlimit: real)
    requires ParamsOk(prm) && 0.0 <= dt && AllBurstOk(ps, prm.amax)
    ensures AllBurstOk(IntegrateAll(mth, prm, ps, dt, vlimit), prm.amax)
  {
    var qs := IntegrateAll(mth, prm, ps, dt, vlimit);
    forall t | 0 <= t < |qs|
      ensures BurstOk(qs[t], prm.amax)
    {
      IntegrateKeepsBurstOk(mth, prm, ps[t], dt, vlimit);
    }
  }

  /** The collision, link and integration passes keep every atom's burst
      invariant. */
  lemma AfterPointerKeepsBurstOk(mth: Math, prm: Params, ps: seq<Particle>, dt: real, vlimit: real)
    requires ParamsOk(prm) && 0.0 <= dt && AllBurstOk(ps, prm.amax)
    ensures AllBurstOk(AfterPointer(mth, prm, ps, dt, vlimit).atoms, prm.amax)
  {
    var collided := ResolveAll(mth, prm.r, ps, NearPairs(mth, ps, 2.0 * prm.r));
    ResolveAllKeepsBurstOk(mth, prm.r, ps, NearPairs(mth, ps, 2.0 * prm.r), prm.amax);
    IntegrateAllKeepsBurstOk(mth, prm, collided, dt, vlimit);
    var moved := IntegrateAll(mth, prm, collided, dt, vlimit);
    AfterPointerFrame(mth, prm, ps, dt, vlimit, collided, moved,
      LinkCmds(mth, prm, collided, NearPairs(mth, collided, prm.armlen)), Discs(prm, moved),
      HitLists(mth, ps, 2.0 * prm.r), ArmLists(mth, collided, prm.armlen));
  }

  /** A frame spelled out pass by pass. */
  lemma AfterPointerFrame(mth: Math, prm: Params, ps: seq<Particle>, dt: real, vlimit: real,
                           collided: seq<Particle>, moved: seq<Particle>, lines: seq<DrawCmd>, discs: seq<DrawCmd>,
                           hs: seq<seq<nat>>, ars: seq<seq<nat>>)
    requires ParamsOk(prm)
    requires collided == ResolveAll(mth, prm.r, ps, NearPairs(mth, ps, 2.0 * prm.r))
    requires lines == LinkCmds(mth, prm, collided, NearPairs(mth, collided, prm.armlen))
    requires moved == IntegrateAll(mth, prm, collided, dt, vlimit) && discs == Discs(prm, moved)
    requires hs == HitLists(mth, ps, 2.0 * prm.r) && ars == ArmLists(mth, collided, prm.armlen)
    ensures AfterPointer(mth, prm, ps, dt, vlimit) == Frame(moved, lines + discs, hs, ars)
  {
  }
}
