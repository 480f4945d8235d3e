/** The loss accounting of the overlap simulation: after the sweeps each particle loses a
    fixed area per close neighbour and a base area when it lies low, capped at its own
    surface; the uncovered fraction of the total surface scales the theoretical charge. */
module OverlapLoss {
  import opened RealMath
  import opened Stacking

  /** `Psize*10+5` squared: neighbours closer than 43 cost area. */
  const LossRadiusSq: real := 1849.0

  /** Area lost per close neighbour. */
  const ContactPenalty: real := 8.4

  /** Area lost by a particle lying on the bottom. */
  const BasePenalty: real := 12.0

  /** Heights below this count as lying on the bottom. */
  const BaseHeight: int := 5

  /** `SApar`: the surface of one particle of diameter 3.8. */
  const SApar: real := 4.0 * Pi * (3.8 / 2.0) * (3.8 / 2.0)

  /** `N`: particles per simulated trial. */
  const ParticleCount: nat := 2000

  /** `SAtotal`: the surface of all particles of a trial. */
  const SAtotal: real := 2000.0 * SApar

  /** Particle `b` is in `index` for particle `i` (and is not `i`). */
  predicate Near(xs: seq<real>, ys: seq<real>, zs: seq<int>, i: nat, b: nat)
    requires Placed(xs, ys, zs) && i < |zs| && b < |zs|
  {
    b != i && Dist2(xs, ys, zs, i, b) < LossRadiusSq
  }

  /** The number of particles below `n` near particle `i`. */
  function NeighbourCount(xs: seq<real>, ys: seq<real>, zs: seq<int>, i: nat, n: nat): (c: nat)
    requires Placed(xs, ys, zs) && i < |zs| && n <= |zs|
    ensures c == |set b | 0 <= b < n && Near(xs, ys, zs, i, b)|
  {
    if n == 0 then 0
    else
      var below := set b | 0 <= b < n - 1 && Near(xs, ys, zs, i, b);
      assert (set b | 0 <= b < n && Near(xs, ys, zs, i, b)) ==
        below + (if Near(xs, ys, zs, i, n - 1) then {n - 1} else {});
      NeighbourCount(xs, ys, zs, i, n - 1) + (if Near(xs, ys, zs, i, n - 1) then 1 else 0)
  }

  /** The number of heights below `BaseHeight` among the first `n`. */
  function LowCount(zs: seq<int>, n: nat): (c: nat)
    requires n <= |zs|
    ensures c == |set h | 0 <= h < n && zs[h] < BaseHeight|
  {
    if n == 0 then 0
    else
      var below := set h | 0 <= h < n - 1 && zs[h] < BaseHeight;
      assert (set h | 0 <= h < n && zs[h] < BaseHeight) ==
        below + (if zs[n - 1] < BaseHeight then {n - 1} else {});
      LowCount(zs, n - 1) + (if zs[n - 1] < BaseHeight then 1 else 0)
  }

  /** The area particle `i` loses before the cap: 8.4 per near particle, plus 12 when
      it lies below height 5. */
  function RawLoss(xs: seq<real>, ys: seq<real>, zs: seq<int>, i: nat): real
    requires Placed(xs, ys, zs) && i < |zs|
  {
    ContactPenalty * NeighbourCount(xs, ys, zs, i, |zs|) as real +
    (if zs[i] < BaseHeight then BasePenalty else 0.0)
  }

  /** `sumloss` of particle `i`: the raw loss capped at the particle's own surface. */
  function Loss(xs: seq<real>, ys: seq<real>, zs: seq<int>, i: nat): (r: real)
    requires Placed(xs, ys, zs) && i < |zs|
    ensures 0.0 <= r <= SApar
    ensures r <= RawLoss(xs, ys, zs, i)
  {
    var raw := RawLoss(xs, ys, zs, i);
    if raw >= SApar then SApar else raw
  }

  /** A particle with no near particle loses 12 when it lies low and nothing otherwise. */
  lemma IsolatedParticleLoss(xs: seq<real>, ys: seq<real>, zs: seq<int>, i: nat)
    requires Placed(xs, ys, zs) && i < |zs|
    requires forall b :: 0 <= b < |zs| ==> !Near(xs, ys, zs, i, b)
    ensures Loss(xs, ys, zs, i) == if zs[i] < BaseHeight then BasePenalty else 0.0
  {
    assert (set b | 0 <= b < |zs| && Near(xs, ys, zs, i, b)) == {};
  }

  /** With at most three near particles the cap never applies. */
  lemma FewNeighboursUncapped(xs: seq<real>, ys: seq<real>, zs: seq<int>, i: nat)
    requires Placed(xs, ys, zs) && i < |zs|
    requires NeighbourCount(xs, ys, zs, i, |zs|) <= 3
    ensures Loss(xs, ys, zs, i) == RawLoss(xs, ys, zs, i)
  {
    var n := NeighbourCount(xs, ys, zs, i, |zs|) as real;
    assert ContactPenalty * n <= 25.2;
  }

  /** The `sumlosses` list of a trial. */
  function Losses(xs: seq<real>, ys: seq<real>, zs: seq<int>): (ls: seq<real>)
    requires Placed(xs, ys, zs)
    ensures |ls| == |zs| && forall i :: 0 <= i < |zs| ==> ls[i] == Loss(xs, ys, zs, i)
  {
    seq(|zs|, i requires 0 <= i < |zs| => Loss(xs, ys, zs, i))
  }

  /** The loss pass: `olap` collects 8.4 per near particle, `btom` 12 for a low one, and
      `base` counts the low particles. */
  method AccountLosses(xs: seq<real>, ys: seq<real>, zs: seq<int>) returns (sumlosses: seq<real>, base: nat)
    requires Placed(xs, ys, zs)
    ensures sumlosses == Losses(xs, ys, zs)
    ensures base == |set h | 0 <= h < |zs| && zs[h] < BaseHeight|
  {
    sumlosses, base := [], 0;
    for i := 0 to |zs|
      invariant |sumlosses| == i
      invariant forall k :: 0 <= k < i ==> sumlosses[k] == Loss(xs, ys, zs, k)
      invariant base == LowCount(zs, i)
    {
      var btomsum := 0.0;
      if zs[i] < BaseHeight {
        base := base + 1;
        btomsum := BasePenalty;
      }
      var olapsum := 0.0;
      for b := 0 to |zs|
        invariant olapsum == ContactPenalty * NeighbourCount(xs, ys, zs, i, b) as real
      {
        if b != i && Dist2(xs, ys, zs, i, b) < LossRadiusSq {
          olapsum := olapsum + ContactPenalty;
        }
      }
      var sumloss := olapsum + btomsum;
      if sumloss >= SApar {
        sumloss := SApar;
      }
      sumlosses := sumlosses + [sumloss];
    }
  }

  /** `Ratio = (SAtotal - Area) / SAtotal`: the fraction of the surface left uncovered. */
  function Ratio(losses: seq<real>): real
  {
    (SAtotal - Sum(losses)) / SAtotal
  }

  /** With 2000 losses each between 0 and `SApar`, the ratio lies in [0, 1]. */
  lemma RatioInUnitInterval(losses: seq<real>)
    requires |losses| == ParticleCount
    requires forall k :: 0 <= k < |losses| ==> 0.0 <= losses[k] <= SApar
    ensures 0.0 <= Ratio(losses) <= 1.0
  {
    SumBounds(losses, 0.0, SApar);
  }

  /** `np.full((N), 1)`. */
  function Ones(n: nat): (zs: seq<int>)
    ensures |zs| == n && AtLeastOne(zs)
  {
    seq(n, _ => 1)
  }

  /** Particle positions of one trial. */
  datatype Layout = Layout(xs: seq<real>, ys: seq<real>)

  predicate Full(layout: Layout)
  {
    |layout.xs| == |layout.ys| == ParticleCount
  }

  /** The ratio of one trial over the given positions: all heights one, seven sweeps, then
      the loss pass. */
  function TrialRatio(layout: Layout): (r: real)
    requires Full(layout)
    ensures 0.0 <= r <= 1.0
  {
    var zs := Relaxed(layout.xs, layout.ys, Ones(ParticleCount), Sweeps);
    var losses := Losses(layout.xs, layout.ys, zs);
    RatioInUnitInterval(losses);
    Ratio(losses)
  }

  /** The final heights of a trial are all at least one. */
  lemma TrialHeightsPositive(layout: Layout)
    requires Full(layout)
    ensures AtLeastOne(Relaxed(layout.xs, layout.ys, Ones(ParticleCount), Sweeps))
  {
    RelaxedKeepsHeights(layout.xs, layout.ys, Ones(ParticleCount), Sweeps);
  }

  /** One trial over the in-place height array. */
  method Trial(layout: Layout) returns (ratio: real)
    requires Full(layout)
    ensures ratio == TrialRatio(layout)
  {
    var z := new int[ParticleCount](_ => 1);
    assert z[..] == Ones(ParticleCount);
    Relax(layout.xs, layout.ys, z, Sweeps);
    var sumlosses, base := AccountLosses(layout.xs, layout.ys, z[..]);
    ratio := Ratio(sumlosses);
  }

  function TrialRatios(layouts: seq<Layout>): (rs: seq<real>)
    requires forall k :: 0 <= k < |layouts| ==> Full(layouts[k])
    ensures |rs| == |layouts| && forall k :: 0 <= k < |layouts| ==> rs[k] == TrialRatio(layouts[k])
  {
    seq(|layouts|, k requires 0 <= k < |layouts| => TrialRatio(layouts[k]))
  }

  /** `MR.append(np.mean(Ratios))` over the trials of one loading: the mean ratio lies in
      [0, 1]. */
  method MeanRatio(layouts: seq<Layout>) returns (mr: real)
    requires layouts != [] && forall k :: 0 <= k < |layouts| ==> Full(layouts[k])
    ensures mr == Mean(TrialRatios(layouts))
    ensures 0.0 <= mr <= 1.0
  {
    var ratios := [];
    for x := 0 to |layouts|
      invariant ratios == TrialRatios(layouts[..x])
    {
      var ratio := Trial(layouts[x]);
      ratios := ratios + [ratio];
    }
    assert layouts[..|layouts|] == layouts;
    MeanBounds(ratios, 0.0, 1.0);
    mr := Mean(ratios);
  }

  /** The loop over the loadings' coverages: one mean ratio per loading, each in [0, 1]. */
  method MeanRatios(trials: seq<seq<Layout>>) returns (mr: seq<real>)
    requires forall c :: 0 <= c < |trials| ==>
      trials[c] != [] && forall k :: 0 <= k < |trials[c]| ==> Full(trials[c][k])
    ensures |mr| == |trials|
    ensures forall c :: 0 <= c < |trials| ==> mr[c] == Mean(TrialRatios(trials[c])) && 0.0 <= mr[c] <= 1.0
  {
    mr := [];
    for c := 0 to |trials|
      invariant |mr| == c
      invariant forall j :: 0 <= j < c ==> mr[j] == Mean(TrialRatios(trials[j])) && 0.0 <= mr[j] <= 1.0
    {
      var m := MeanRatio(trials[c]);
      mr := mr + [m];
    }
  }

  lemma ScaledBelow(a: real, m: real)
    requires a >= 0.0 && 0.0 <= m <= 1.0
    ensures 0.0 <= a * m <= a
  {
  }

  /** `T.append(a * MR[i])`: the simulated charge of each loading is its theoretical charge
      times its mean ratio, so never above the theoretical charge. */
  method SimulatedCharges(theory: seq<real>, meanRatios: seq<real>) returns (t: seq<real>)
    requires |theory| <= |meanRatios|
    ensures |t| == |theory|
    ensures forall i :: 0 <= i < |theory| ==> t[i] == theory[i] * meanRatios[i]
    ensures forall i :: 0 <= i < |theory| && theory[i] >= 0.0 && 0.0 <= meanRatios[i] <= 1.0 ==>
      0.0 <= t[i] <= theory[i]
  {
    t := [];
    for i := 0 to |theory|
      invariant |t| == i
      invariant forall k :: 0 <= k < i ==> t[k] == theory[k] * meanRatios[k]
    {
      t := t + [theory[i] * meanRatios[i]];
    }
    forall i | 0 <= i < |theory| && theory[i] >= 0.0 && 0.0 <= meanRatios[i] <= 1.0
      ensures 0.0 <= t[i] <= theory[i]
    {
      ScaledBelow(theory[i], meanRatios[i]);
    }
  }
}
