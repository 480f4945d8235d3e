/** The height-relaxation sweep of the overlap simulation: particles of diameter 3.8 nm
    (38 in the simulation's units) lie at fixed planar positions with integer heights `Z`;
    processing particle `i` lifts every other particle that touches it onto it. Square
    roots are never taken: a distance below 35 is a squared distance below 1225, and
    adding `sqrt(v)` to an integer height that numpy stores back as an integer adds the
    integer square root of `v`. */
module Stacking {
  import opened RealMath

  /** Particles closer than 35 (squared: 1225) to particle `i` are lifted. */
  const ContactRadiusSq: real := 1225.0

  /** `(Psize*10)**2`: the squared particle diameter in simulation units. */
  const StackDiameterSq: real := 1444.0

  /** The script repeats the sweep block seven times. */
  const Sweeps: nat := 7

  predicate Placed(xs: seq<real>, ys: seq<real>, zs: seq<int>)
  {
    |xs| == |ys| == |zs|
  }

  /** Squared planar distance between particles `i` and `h`. */
  function Planar2(xs: seq<real>, ys: seq<real>, i: nat, h: nat): (d: real)
    requires i < |xs| && h < |xs| && |ys| == |xs|
    ensures d >= 0.0
  {
    Sq(xs[i] - xs[h]) + Sq(ys[i] - ys[h])
  }

  /** Squared 3D distance between particles `i` and `h`: `Distance1[h]**2`. It is never
      below the planar one, and equals it at equal heights. */
  function Dist2(xs: seq<real>, ys: seq<real>, zs: seq<int>, i: nat, h: nat): (d: real)
    requires Placed(xs, ys, zs) && i < |zs| && h < |zs|
    ensures d >= Planar2(xs, ys, i, h)
    ensures zs[i] == zs[h] ==> d == Planar2(xs, ys, i, h)
  {
    Planar2(xs, ys, i, h) + Sq((zs[i] - zs[h]) as real)
  }

  /** The whole `Distance1` vector for particle `i`, squared. */
  function Distances(xs: seq<real>, ys: seq<real>, zs: seq<int>, i: nat): (ds: seq<real>)
    requires Placed(xs, ys, zs) && i < |zs|
    ensures |ds| == |zs| && forall h :: 0 <= h < |zs| ==> ds[h] == Dist2(xs, ys, zs, i, h)
  {
    seq(|zs|, h requires 0 <= h < |zs| => Dist2(xs, ys, zs, i, h))
  }

  /** `h` is in `index` when particle `i` is processed: another particle within 35. */
  predicate InContact(xs: seq<real>, ys: seq<real>, zs: seq<int>, i: nat, h: nat)
    requires Placed(xs, ys, zs) && i < |zs| && h < |zs|
  {
    h != i && Dist2(xs, ys, zs, i, h) < ContactRadiusSq
  }

  lemma SquareAtLeast(n: int)
    requires n >= 1
    ensures n <= n * n
  {
  }

  lemma SquareMonotone(a: int, b: int)
    requires 0 <= a <= b
    ensures a * a <= b * b
  {
  }

  /** Between non-negative integers, a smaller square means a smaller root. */
  lemma SquareOrder(a: int, b: int)
    requires 0 <= a && 0 <= b && a * a < b * b
    ensures a < b
  {
    if b <= a {
      SquareMonotone(b, a);
    }
  }

  /** The largest integer whose square is at most `v`: what truncating `sqrt(v)` gives. */
  function FloorSqrt(v: real): (k: int)
    requires v >= 0.0
    ensures 0 <= k && (k * k) as real <= v < ((k + 1) * (k + 1)) as real
  {
    FloorSqrtFrom(v, 0)
  }

  function FloorSqrtFrom(v: real, k: nat): (r: int)
    requires (k * k) as real <= v
    ensures k <= r && (r * r) as real <= v < ((r + 1) * (r + 1)) as real
    decreases v.Floor - k
  {
    if ((k + 1) * (k + 1)) as real <= v then
      SquareAtLeast(k + 1);
      FloorSqrtFrom(v, k + 1)
    else k
  }

  /** The stacking term's argument `(Psize*10)**2 - d**2` for a planar distance below 35
      is above 219, so positive. */
  lemma StackingArgumentPositive(xs: seq<real>, ys: seq<real>, zs: seq<int>, i: nat, h: nat)
    requires Placed(xs, ys, zs) && i < |zs| && h < |zs|
    requires InContact(xs, ys, zs, i, h)
    ensures StackDiameterSq - Planar2(xs, ys, i, h) > 219.0
  {
  }

  /** How far a particle at planar distance `sqrt(Planar2)` ends up above particle `i`:
      `int(sqrt(1444 - d**2))`, between 14 and 38. */
  function Lift(xs: seq<real>, ys: seq<real>, i: nat, h: nat): (k: int)
    requires i < |xs| && h < |xs| && |ys| == |xs|
    requires Planar2(xs, ys, i, h) < ContactRadiusSq
    ensures 14 <= k <= 38
    ensures (k * k) as real <= StackDiameterSq - Planar2(xs, ys, i, h) < ((k + 1) * (k + 1)) as real
  {
    var v := StackDiameterSq - Planar2(xs, ys, i, h);
    var k := FloorSqrt(v);
    SquareOrder(14, k + 1);
    SquareOrder(k, 39);
    k
  }

  /** The heights after particle `i` is processed: every particle in contact with `i` at
      the start of its step sits on `i`, lifted by `Lift`; every other height, `i`'s own
      included, is unchanged. */
  function Stepped(xs: seq<real>, ys: seq<real>, zs: seq<int>, i: nat): (r: seq<int>)
    requires Placed(xs, ys, zs) && i < |zs|
    ensures |r| == |zs| && r[i] == zs[i]
    ensures forall h :: 0 <= h < |zs| && !InContact(xs, ys, zs, i, h) ==> r[h] == zs[h]
    ensures forall h :: 0 <= h < |zs| && InContact(xs, ys, zs, i, h) ==>
      zs[i] + 14 <= r[h] <= zs[i] + 38
  {
    seq(|zs|, h requires 0 <= h < |zs| =>
      if InContact(xs, ys, zs, i, h) then zs[i] + Lift(xs, ys, i, h) else zs[h])
  }

  predicate AtLeastOne(zs: seq<int>)
  {
    forall h :: 0 <= h < |zs| ==> zs[h] >= 1
  }

  /** One step keeps every height at least one. */
  lemma SteppedKeepsHeights(xs: seq<real>, ys: seq<real>, zs: seq<int>, i: nat)
    requires Placed(xs, ys, zs) && i < |zs| && AtLeastOne(zs)
    ensures AtLeastOne(Stepped(xs, ys, zs, i))
  {
    var r := Stepped(xs, ys, zs, i);
    forall h | 0 <= h < |zs|
      ensures r[h] >= 1
    {
      if InContact(xs, ys, zs, i, h) {
        assert r[h] >= zs[i] + 14;
      }
    }
  }

  /** One pass of the inner loop over `index`: particle `g` is first brought to `i`'s
      height, `Distance1` recomputed if that moved it, and then raised by the square root
      of the stacking term. Returns the distance vector as it then stands. */
  method Land(xs: seq<real>, ys: seq<real>, z: array<int>, i: nat, g: nat, dist: seq<real>)
    returns (dist': seq<real>)
    requires Placed(xs, ys, z[..]) && i < z.Length && g < z.Length && g != i
    requires Planar2(xs, ys, i, g) < ContactRadiusSq && |dist| == z.Length
    requires forall h :: g <= h < z.Length ==>
      dist[h] == Planar2(xs, ys, i, h) + Sq((z[i] - z[h]) as real)
    modifies z
    ensures z[..] == old(z[..])[g := old(z[i]) + Lift(xs, ys, i, g)]
    ensures |dist'| == z.Length
    ensures forall h :: g < h < z.Length ==>
      dist'[h] == Planar2(xs, ys, i, h) + Sq((z[i] - z[h]) as real)
  {
    dist' := dist;
    if z[g] != z[i] {
      z[g] := z[i];
      dist' := Distances(xs, ys, z[..], i);
    }
    assert dist'[g] == Planar2(xs, ys, i, g);
    z[g] := z[g] + FloorSqrt(StackDiameterSq - dist'[g]);
  }

  /** Processing particle `i`: the body of `for i, a in enumerate(Positions[0])` with its
      inner loop over `index`, `Distance1` recomputed whenever a neighbour is first
      brought to `i`'s height. */
  method Step(xs: seq<real>, ys: seq<real>, z: array<int>, i: nat)
    requires Placed(xs, ys, z[..]) && i < z.Length
    modifies z
    ensures z[..] == Stepped(xs, ys, old(z[..]), i)
  {
    ghost var z0 := z[..];
    ghost var want := Stepped(xs, ys, z0, i);
    var dist := Distances(xs, ys, z[..], i);
    var start := dist;
    var g := 0;
    while g < z.Length
      invariant 0 <= g <= z.Length && |dist| == z.Length
      invariant z[i] == z0[i]
      invariant forall h :: 0 <= h < g ==> z[h] == want[h]
      invariant forall h :: g <= h < z.Length ==> z[h] == z0[h]
      invariant forall h :: g <= h < z.Length ==>
        dist[h] == Planar2(xs, ys, i, h) + Sq((z[i] - z[h]) as real)
    {
      if start[g] < ContactRadiusSq && g != i {
        assert InContact(xs, ys, z0, i, g);
        assert want[g] == z0[i] + Lift(xs, ys, i, g);
        dist := Land(xs, ys, z, i, g, dist);
      } else {
        assert !InContact(xs, ys, z0, i, g);
      }
      g := g + 1;
    }
    assert forall h :: 0 <= h < z.Length ==> z[..][h] == want[h];
  }

  /** The heights after particles `0 .. n-1` have been processed in order. */
  function SweptThrough(xs: seq<real>, ys: seq<real>, zs: seq<int>, n: nat): (r: seq<int>)
    requires Placed(xs, ys, zs) && n <= |zs|
    ensures |r| == |zs|
  {
    if n == 0 then zs else Stepped(xs, ys, SweptThrough(xs, ys, zs, n - 1), n - 1)
  }

  /** One sweep: every particle processed once, in index order. */
  function Swept(xs: seq<real>, ys: seq<real>, zs: seq<int>): (r: seq<int>)
    requires Placed(xs, ys, zs)
    ensures |r| == |zs|
  {
    SweptThrough(xs, ys, zs, |zs|)
  }

  /** `s` sweeps in a row. */
  function Relaxed(xs: seq<real>, ys: seq<real>, zs: seq<int>, s: nat): (r: seq<int>)
    requires Placed(xs, ys, zs)
    ensures |r| == |zs|
  {
    if s == 0 then zs else Swept(xs, ys, Relaxed(xs, ys, zs, s - 1))
  }

  lemma {:induction false} SweptThroughKeepsHeights(xs: seq<real>, ys: seq<real>, zs: seq<int>, n: nat)
    requires Placed(xs, ys, zs) && n <= |zs| && AtLeastOne(zs)
    ensures AtLeastOne(SweptThrough(xs, ys, zs, n))
  {
    if n > 0 {
      SweptThroughKeepsHeights(xs, ys, zs, n - 1);
      SteppedKeepsHeights(xs, ys, SweptThrough(xs, ys, zs, n - 1), n - 1);
    }
  }

  /** Heights that start at one or more stay at one or more through any number of sweeps. */
  lemma {:induction false} RelaxedKeepsHeights(xs: seq<real>, ys: seq<real>, zs: seq<int>, s: nat)
    requires Placed(xs, ys, zs) && AtLeastOne(zs)
    ensures AtLeastOne(Relaxed(xs, ys, zs, s))
  {
    if s > 0 {
      RelaxedKeepsHeights(xs, ys, zs, s - 1);
      SweptThroughKeepsHeights(xs, ys, Relaxed(xs, ys, zs, s - 1), |zs|);
    }
  }

  /** One sweep block of the script. */
  method Sweep(xs: seq<real>, ys: seq<real>, z: array<int>)
    requires Placed(xs, ys, z[..])
    modifies z
    ensures z[..] == Swept(xs, ys, old(z[..]))
  {
    ghost var z0 := z[..];
    for i := 0 to z.Length
      invariant z[..] == SweptThrough(xs, ys, z0, i)
    {
      Step(xs, ys, z, i);
    }
  }

  /** The seven identical sweep blocks, run `sweeps` times. */
  method Relax(xs: seq<real>, ys: seq<real>, z: array<int>, sweeps: nat)
    requires Placed(xs, ys, z[..])
    modifies z
    ensures z[..] == Relaxed(xs, ys, old(z[..]), sweeps)
  {
    ghost var z0 := z[..];
    for s := 0 to sweeps
      invariant z[..] == Relaxed(xs, ys, z0, s)
    {
      Sweep(xs, ys, z);
    }
  }
}
