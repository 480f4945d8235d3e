/** `IntegrateCurrent`: integrate the current measured during a deposition, turn the charge
    into a particle count and a coverage, and estimate the time until the next coverage target. */
module CurrentIntegration {
  import opened Wrappers
  import opened RealMath
  import opened Parameters
  import opened Text

  /** The elementary charge (C) as the script writes it. */
  const ElementaryCharge: real := 1.602e-19

  /** Net currents (A) at or below this are noise and stay out of the deposition rate. */
  const NoiseFloor: real := 1e-13

  /** The deposition rate averages at most this many of the latest samples. */
  const RateWindow: nat := 100

  /** Avogadro's number as `to_pmol` writes it. */
  const Avogadro: real := 6.022e23

  /** One row of the measurement: time (s) and current (A). */
  datatype Sample = Sample(time: real, current: real)

  /** The exceptions `integrate` can raise, and the conversions' zero divisions. */
  datatype Error =
    | Missing(attribute: string)  // AttributeError: the parameter string never set it
    | DivisionByZero              // a conversion divides by an area of zero
    | MissingUpperBound           // IndexError: TIME held a single value
    | NotIterable                 // TypeError: no TARGET was given
    | NoTargetChosen              // UnboundLocalError: the target loop never ran
    | NoCoverage                  // TypeError: a target compared with the None coverage of a non-NP model
    | NaNTime                     // ValueError: int(nan), no sample above the noise floor

  /** What `integrate` prints. */
  datatype Report =
    | Exceeded(target: real, present: real, pmol: real)
    | TimeLeft(pmol: real, present: real, target: real, hours: int, minutes: int, seconds: int)

  /** `to_pmol`: a particle count in picomoles. */
  function ToPmol(number: real): (r: real)
    ensures r * Avogadro == number * 1e12
    ensures r >= 0.0 <==> number >= 0.0
  {
    number * 1e12 / Avogadro
  }

  /** `convert_coverage_to_number`: a coverage in percent as a particle count; None for a
      model other than NP. */
  function CoverageToNumber(st: Settings, coverage: real): (r: Result<Option<real>, Error>)
    ensures st.model != Some(NP) ==> r == Success(None)
    ensures r.Success? ==> (r.value.Some? <==> st.model == Some(NP))
    ensures st.model == Some(NP) ==>
      (r.Success? <==> st.areaAperture.Some? && st.areaParticle.Some? && st.areaParticle.value != 0.0)
  {
    match st.model
    case None => Success(None)
    case Some(SA) => Success(None)
    case Some(NP) =>
      if st.areaAperture.None? then Failure(Missing("area_aperture"))
      else if st.areaParticle.None? then Failure(Missing("area_particle"))
      else if st.areaParticle.value == 0.0 then Failure(DivisionByZero)
      else Success(Some(coverage / 100.0 * st.areaAperture.value / st.areaParticle.value))
  }

  /** `convert_number_to_coverage`: a particle count as a coverage in percent; None for a
      model other than NP. */
  function NumberToCoverage(st: Settings, number: real): (r: Result<Option<real>, Error>)
    ensures st.model != Some(NP) ==> r == Success(None)
    ensures r.Success? ==> (r.value.Some? <==> st.model == Some(NP))
    ensures st.model == Some(NP) ==>
      (r.Success? <==> st.areaAperture.Some? && st.areaParticle.Some? && st.areaAperture.value != 0.0)
  {
    match st.model
    case None => Success(None)
    case Some(SA) => Success(None)
    case Some(NP) =>
      if st.areaAperture.None? then Failure(Missing("area_aperture"))
      else if st.areaAperture.value == 0.0 then Failure(DivisionByZero)
      else if st.areaParticle.None? then Failure(Missing("area_particle"))
      else Success(Some(number * 100.0 / st.areaAperture.value * st.areaParticle.value))
  }

  /** Both areas set and positive under the NP model: the conversions are defined. */
  predicate Convertible(st: Settings)
  {
    st.model == Some(NP) && st.areaAperture.Some? && st.areaParticle.Some? &&
    st.areaAperture.value > 0.0 && st.areaParticle.value > 0.0
  }

  /** The two conversions undo each other under the NP model. */
  lemma CoverageRoundTrip(st: Settings, coverage: real)
    requires Convertible(st)
    ensures var n := CoverageToNumber(st, coverage);
      n.Success? && n.value.Some? && NumberToCoverage(st, n.value.value).Success? &&
      NumberToCoverage(st, n.value.value).value == Some(coverage)
  {
    var a, p := st.areaAperture.value, st.areaParticle.value;
    var n := CoverageToNumber(st, coverage).value.value;
    assert n == coverage / 100.0 * a / p;
    CancelAreas(coverage, a, p);
    assert NumberToCoverage(st, n).value.value == n * 100.0 / a * p == coverage;
    assert NumberToCoverage(st, n).value == Some(coverage);
  }

  lemma NumberRoundTrip(st: Settings, number: real)
    requires Convertible(st)
    ensures var c := NumberToCoverage(st, number);
      c.Success? && c.value.Some? && CoverageToNumber(st, c.value.value).Success? &&
      CoverageToNumber(st, c.value.value).value == Some(number)
  {
    var a, p := st.areaAperture.value, st.areaParticle.value;
    var c := NumberToCoverage(st, number).value.value;
    assert c == number * 100.0 / a * p;
    CancelAreasBack(number, a, p);
    assert CoverageToNumber(st, c).value.value == c / 100.0 * a / p == number;
    assert CoverageToNumber(st, c).value == Some(number);
  }

  lemma CancelAreas(c: real, a: real, p: real)
    requires a > 0.0 && p > 0.0
    ensures (c / 100.0 * a / p) * 100.0 / a * p == c
  {
  }

  lemma CancelAreasBack(n: real, a: real, p: real)
    requires a > 0.0 && p > 0.0
    ensures (n * 100.0 / a * p) / 100.0 * a / p == n
  {
  }

  /** A target below the present coverage is a particle count below the present count,
      and the other way round. */
  lemma TargetBelowCoverage(st: Settings, target: real, number: real)
    requires Convertible(st)
    ensures CoverageToNumber(st, target).value.value < number <==>
            target < NumberToCoverage(st, number).value.value
  {
    var a, p := st.areaAperture.value, st.areaParticle.value;
    ScaledLess(target, number, a, p);
  }

  lemma ScaledLess(t: real, n: real, a: real, p: real)
    requires a > 0.0 && p > 0.0
    ensures t / 100.0 * a / p < n <==> t < n * 100.0 / a * p
  {
    var k := a / (100.0 * p);
    assert k > 0.0;
    assert t / 100.0 * a / p == t * k;
    assert n * 100.0 / a * p == n / k;
    assert t * k < n <==> t < n / k;
  }

  /** |current + leak| for one sample. */
  function NetCurrent(s: Sample, leak: real): (r: real)
    ensures r >= 0.0 && (r == s.current + leak || r == -(s.current + leak))
  {
    Abs(s.current + leak)
  }

  /** The left-difference sum Σ_{k≥1} |I_k + leak|·(t_k − t_{k−1}), in coulombs. */
  function Charge(data: seq<Sample>, leak: real): real
    decreases |data|
  {
    if |data| < 2 then 0.0
    else NetCurrent(data[1], leak) * (data[1].time - data[0].time) + Charge(data[1..], leak)
  }

  /** `np.sum(net_current[1:] * np.diff(time)) / e`: the number of charges deposited. */
  function Integral(data: seq<Sample>, leak: real): real
  {
    Charge(data, leak) / ElementaryCharge
  }

  predicate Sorted(data: seq<Sample>)
  {
    forall j, k :: 0 <= j < k < |data| ==> data[j].time <= data[k].time
  }

  lemma NonNegativeProduct(x: real, y: real)
    requires x >= 0.0 && y >= 0.0
    ensures x * y >= 0.0
  {
  }

  /** Over non-decreasing times the integral is never negative. */
  lemma {:induction false} IntegralNonNegative(data: seq<Sample>, leak: real)
    requires Sorted(data)
    ensures Integral(data, leak) >= 0.0
  {
    ChargeNonNegative(data, leak);
  }

  lemma {:induction false} ChargeNonNegative(data: seq<Sample>, leak: real)
    requires Sorted(data)
    ensures Charge(data, leak) >= 0.0
    decreases |data|
  {
    if |data| >= 2 {
      NonNegativeProduct(NetCurrent(data[1], leak), data[1].time - data[0].time);
      ChargeNonNegative(data[1..], leak);
    }
  }

  /** A constant current `c` sampled every `dt` seconds from `t0` on integrates to
      |c + leak|·dt·(N − 1)/e. */
  lemma {:induction false} ConstantCurrentIntegral(data: seq<Sample>, leak: real, t0: real, dt: real, c: real)
    requires |data| >= 1
    requires forall k :: 0 <= k < |data| ==> data[k] == Sample(t0 + k as real * dt, c)
    ensures Integral(data, leak) == Abs(c + leak) * dt * (|data| - 1) as real / ElementaryCharge
  {
    ConstantCurrentCharge(data, leak, t0, dt, c);
  }

  lemma {:induction false} ConstantCurrentCharge(data: seq<Sample>, leak: real, t0: real, dt: real, c: real)
    requires |data| >= 1
    requires forall k :: 0 <= k < |data| ==> data[k] == Sample(t0 + k as real * dt, c)
    ensures Charge(data, leak) == Abs(c + leak) * dt * (|data| - 1) as real
    decreases |data|
  {
    if |data| >= 2 {
      var rest := data[1..];
      forall k | 0 <= k < |rest|
        ensures rest[k] == Sample((t0 + dt) + k as real * dt, c)
      {
        assert rest[k] == data[k + 1];
        assert (k + 1) as real * dt == k as real * dt + dt;
      }
      ConstantCurrentCharge(rest, leak, t0 + dt, dt, c);
      assert data[1].time - data[0].time == dt;
      var n := (|data| - 2) as real;
      assert Abs(c + leak) * dt + Abs(c + leak) * dt * n == Abs(c + leak) * dt * (n + 1.0);
    }
  }

  /** `data[np.where(data[:, 0] >= lo)]`. */
  function AtOrAfter(data: seq<Sample>, lo: real): (r: seq<Sample>)
    ensures |r| <= |data|
  {
    if data == [] then []
    else (if data[0].time >= lo then [data[0]] else []) + AtOrAfter(data[1..], lo)
  }

  /** `data[np.where(data[:, 0] <= hi)]`. */
  function AtOrBefore(data: seq<Sample>, hi: real): (r: seq<Sample>)
    ensures |r| <= |data|
  {
    if data == [] then []
    else (if data[0].time <= hi then [data[0]] else []) + AtOrBefore(data[1..], hi)
  }

  /** The lower bound keeps exactly the samples at or after it. */
  lemma {:induction false} AtOrAfterKeeps(data: seq<Sample>, lo: real, s: Sample)
    ensures s in AtOrAfter(data, lo) <==> s in data && s.time >= lo
  {
    if data != [] {
      AtOrAfterKeeps(data[1..], lo, s);
      assert data == [data[0]] + data[1..];
    }
  }

  /** The upper bound keeps exactly the samples at or before it. */
  lemma {:induction false} AtOrBeforeKeeps(data: seq<Sample>, hi: real, s: Sample)
    ensures s in AtOrBefore(data, hi) <==> s in data && s.time <= hi
  {
    if data != [] {
      AtOrBeforeKeeps(data[1..], hi, s);
      assert data == [data[0]] + data[1..];
    }
  }

  /** What `integrate` leaves in `self.data`: all of it without a TIME window, the samples
      at or after `time[0]` when only that bound exists (and `time[1]` then raises), the
      samples inside the window otherwise. */
  function Windowed(data: seq<Sample>, time: seq<real>): (r: seq<Sample>)
    ensures |r| <= |data|
    ensures time == [] ==> r == data
  {
    if time == [] then data
    else if |time| == 1 then AtOrAfter(data, time[0])
    else AtOrBefore(AtOrAfter(data, time[0]), time[1])
  }

  /** The window keeps exactly the samples with time[0] <= t <= time[1]. */
  lemma WindowKeepsExactly(data: seq<Sample>, time: seq<real>, s: Sample)
    requires |time| >= 2
    ensures s in Windowed(data, time) <==> s in data && time[0] <= s.time <= time[1]
  {
    AtOrAfterKeeps(data, time[0], s);
    AtOrBeforeKeeps(AtOrAfter(data, time[0]), time[1], s);
  }

  lemma {:induction false} AllAtOrAfter(data: seq<Sample>, lo: real)
    requires forall k :: 0 <= k < |data| ==> data[k].time >= lo
    ensures AtOrAfter(data, lo) == data
  {
    if data != [] {
      AllAtOrAfter(data[1..], lo);
    }
  }

  lemma {:induction false} NoneAtOrBefore(data: seq<Sample>, hi: real)
    requires forall k :: 0 <= k < |data| ==> data[k].time > hi
    ensures AtOrBefore(data, hi) == []
  {
    if data != [] {
      NoneAtOrBefore(data[1..], hi);
    }
  }

  /** On sorted data the lower bound cuts off a prefix. */
  lemma {:induction false} SortedAtOrAfterIsSuffix(data: seq<Sample>, lo: real)
    requires Sorted(data)
    ensures AtOrAfter(data, lo) == data[|data| - |AtOrAfter(data, lo)|..]
  {
    if data != [] {
      if data[0].time >= lo {
        AllAtOrAfter(data[1..], lo);
        assert [data[0]] + data[1..] == data;
      } else {
        SortedAtOrAfterIsSuffix(data[1..], lo);
        assert data[1..][|data| - 1 - |AtOrAfter(data[1..], lo)|..] == data[|data| - |AtOrAfter(data[1..], lo)|..];
      }
    }
  }

  /** On sorted data the upper bound cuts off a suffix. */
  lemma {:induction false} SortedAtOrBeforeIsPrefix(data: seq<Sample>, hi: real)
    requires Sorted(data)
    ensures AtOrBefore(data, hi) == data[..|AtOrBefore(data, hi)|]
  {
    if data != [] {
      var rest := data[1..];
      SortedTail(data);
      if data[0].time <= hi {
        SortedAtOrBeforeIsPrefix(rest, hi);
        var m := |AtOrBefore(rest, hi)|;
        assert AtOrBefore(data, hi) == [data[0]] + rest[..m];
        assert [data[0]] + rest[..m] == data[..m + 1];
      } else {
        assert forall k :: 0 <= k < |rest| ==> rest[k].time >= data[0].time;
        NoneAtOrBefore(rest, hi);
        assert AtOrBefore(data, hi) == [];
      }
    }
  }

  lemma SortedTail(data: seq<Sample>)
    requires Sorted(data) && data != []
    ensures Sorted(data[1..])
    ensures forall k :: 0 <= k < |data| - 1 ==> data[0].time <= data[1..][k].time
  {
    forall k | 0 <= k < |data| - 1
      ensures data[0].time <= data[1..][k].time
    {
      assert data[1..][k] == data[k + 1];
    }
  }

  lemma {:induction false} ChargeOfSuffix(data: seq<Sample>, k: nat, leak: real)
    requires Sorted(data) && k <= |data|
    ensures Charge(data[k..], leak) <= Charge(data, leak)
    decreases k
  {
    if k > 0 {
      var rest := data[1..];
      SortedTail(data);
      assert data[k..] == rest[k - 1..];
      ChargeOfSuffix(rest, k - 1, leak);
      ChargeDropFirst(data, leak);
    }
  }

  /** Dropping the first sample of time-ordered data drops a non-negative term. */
  lemma ChargeDropFirst(data: seq<Sample>, leak: real)
    requires data != [] && (|data| >= 2 ==> data[0].time <= data[1].time)
    ensures Charge(data[1..], leak) <= Charge(data, leak)
  {
    if |data| >= 2 {
      NonNegativeProduct(NetCurrent(data[1], leak), data[1].time - data[0].time);
    }
  }

  lemma {:induction false} ChargeOfPrefix(data: seq<Sample>, k: nat, leak: real)
    requires Sorted(data) && k <= |data|
    ensures Charge(data[..k], leak) <= Charge(data, leak)
    decreases |data|
  {
    if k < 2 {
      ChargeNonNegative(data, leak);
    } else {
      var front := data[..k];
      assert front[1..] == data[1..][..k - 1];
      ChargeOfPrefix(data[1..], k - 1, leak);
    }
  }

  /** Narrowing the time window of sorted data never increases the integral. */
  lemma WindowNeverIncreasesIntegral(data: seq<Sample>, time: seq<real>, leak: real)
    requires Sorted(data)
    ensures Integral(Windowed(data, time), leak) <= Integral(data, leak)
  {
    if time != [] {
      var after := AtOrAfter(data, time[0]);
      SortedAtOrAfterIsSuffix(data, time[0]);
      ChargeOfSuffix(data, |data| - |after|, leak);
      if |time| >= 2 {
        SortedAtOrBeforeIsPrefix(after, time[1]);
        ChargeOfPrefix(after, |AtOrBefore(after, time[1])|, leak);
      }
    }
  }

  /** `np.abs(data[:, 1] + leak_current)`. */
  function NetCurrents(data: seq<Sample>, leak: real): (r: seq<real>)
    ensures |r| == |data| && forall k :: 0 <= k < |data| ==> r[k] == NetCurrent(data[k], leak)
  {
    if data == [] then [] else [NetCurrent(data[0], leak)] + NetCurrents(data[1..], leak)
  }

  /** `xs[np.where(xs > NoiseFloor)]`. */
  function AboveNoise(xs: seq<real>): (r: seq<real>)
    ensures forall x :: x in r <==> x in xs && x > NoiseFloor
    ensures forall k :: 0 <= k < |r| ==> r[k] > NoiseFloor
    ensures r == [] <==> forall k :: 0 <= k < |xs| ==> xs[k] <= NoiseFloor
  {
    if xs == [] then []
    else (if xs[0] > NoiseFloor then [xs[0]] else []) + AboveNoise(xs[1..])
  }

  /** `xs[-n:]`. */
  function Latest(xs: seq<real>, n: nat): (r: seq<real>)
    ensures |r| == if |xs| <= n then |xs| else n
    ensures r == xs[|xs| - |r|..]
  {
    if |xs| <= n then xs else xs[|xs| - n..]
  }

  /** `np.average(net_current[np.where(net_current > 1e-13)][-100:]) / e`: None where
      `np.average` of the empty selection gives nan. The rate exists exactly when some
      sample rises above the noise floor, and it then exceeds the noise floor's rate. */
  function DepositionRate(data: seq<Sample>, leak: real): (r: Option<real>)
    ensures r.Some? <==> exists k :: 0 <= k < |data| && NetCurrent(data[k], leak) > NoiseFloor
    ensures r.Some? ==> r.value > NoiseFloor / ElementaryCharge
  {
    var above := AboveNoise(NetCurrents(data, leak));
    var recent := Latest(above, RateWindow);
    SomeAboveNoise(data, leak);
    if recent == [] then None
    else
      MeanAboveNoise(recent);
      Some(Mean(recent) / ElementaryCharge)
  }

  lemma SomeAboveNoise(data: seq<Sample>, leak: real)
    ensures AboveNoise(NetCurrents(data, leak)) != [] <==>
            exists k :: 0 <= k < |data| && NetCurrent(data[k], leak) > NoiseFloor
  {
    var net := NetCurrents(data, leak);
    if AboveNoise(net) != [] {
      var k :| 0 <= k < |net| && net[k] > NoiseFloor;
      assert NetCurrent(data[k], leak) > NoiseFloor;
    }
  }

  lemma MeanAboveNoise(recent: seq<real>)
    requires recent != [] && forall k :: 0 <= k < |recent| ==> recent[k] > NoiseFloor
    ensures Mean(recent) / ElementaryCharge > NoiseFloor / ElementaryCharge
  {
    SumStrictlyAbove(recent, NoiseFloor);
    MeanAbove(Sum(recent), |recent| as real, NoiseFloor);
  }

  lemma MeanAbove(total: real, n: real, lo: real)
    requires n > 0.0 && total > n * lo
    ensures total / n > lo
  {
  }

  /** `np.abs(a + leak)` works reading by reading: the net currents of joined data are the
      joined net currents. */
  lemma {:induction false} NetCurrentsAppend(older: seq<Sample>, recent: seq<Sample>, leak: real)
    ensures NetCurrents(older + recent, leak) == NetCurrents(older, leak) + NetCurrents(recent, leak)
  {
    var all := NetCurrents(older + recent, leak);
    var parts := NetCurrents(older, leak) + NetCurrents(recent, leak);
    forall k | 0 <= k < |all|
      ensures all[k] == parts[k]
    {
      if k < |older| {
        assert (older + recent)[k] == older[k];
      } else {
        assert (older + recent)[k] == recent[k - |older|];
      }
    }
  }

  /** Selecting the readings above the noise floor is a filter: it keeps their order and
      their repetitions, one reading at a time. */
  lemma {:induction false} AboveNoiseAppend(xs: seq<real>, ys: seq<real>)
    ensures AboveNoise(xs + ys) == AboveNoise(xs) + AboveNoise(ys)
  {
    if xs == [] {
      assert xs + ys == ys;
    } else {
      assert (xs + ys)[0] == xs[0] && (xs + ys)[1..] == xs[1..] + ys;
      AboveNoiseAppend(xs[1..], ys);
    }
  }

  lemma AboveNoiseSingle(x: real)
    ensures AboveNoise([x]) == if x > NoiseFloor then [x] else []
  {
    assert [x][1..] == [];
  }

  /** `[-n:]` of a sequence whose tail already holds `n` values only sees that tail. */
  lemma LatestOfLonger(xs: seq<real>, ys: seq<real>, n: nat)
    requires |ys| >= n
    ensures Latest(xs + ys, n) == Latest(ys, n)
  {
    assert (xs + ys)[|xs + ys| - n..] == ys[|ys| - n..];
  }

  /** Only the last 100 readings above the noise floor count: readings before them never
      change the rate. */
  lemma DepositionRateForgetsOlder(older: seq<Sample>, recent: seq<Sample>, leak: real)
    requires |AboveNoise(NetCurrents(recent, leak))| >= RateWindow
    ensures DepositionRate(older + recent, leak) == DepositionRate(recent, leak)
  {
    NetCurrentsAppend(older, recent, leak);
    AboveNoiseAppend(NetCurrents(older, leak), NetCurrents(recent, leak));
    LatestOfLonger(AboveNoise(NetCurrents(older, leak)), AboveNoise(NetCurrents(recent, leak)), RateWindow);
  }

  /** The rate is an average: net currents between `lo` and `hi` give a rate between
      `lo / e` and `hi / e`. */
  lemma DepositionRateBounds(data: seq<Sample>, leak: real, lo: real, hi: real)
    requires forall k :: 0 <= k < |data| ==> lo <= NetCurrent(data[k], leak) <= hi
    ensures DepositionRate(data, leak).Some? ==>
      lo / ElementaryCharge <= DepositionRate(data, leak).value <= hi / ElementaryCharge
  {
    var net := NetCurrents(data, leak);
    var above := AboveNoise(net);
    var recent := Latest(above, RateWindow);
    if recent != [] {
      forall k | 0 <= k < |recent|
        ensures lo <= recent[k] <= hi
      {
        assert recent[k] == above[|above| - |recent| + k];
        assert recent[k] in above;
        assert recent[k] in net;
      }
      MeanBounds(recent, lo, hi);
    }
  }

  /** A steady net current above the noise floor is deposited at exactly that rate. */
  lemma SteadyCurrentRate(data: seq<Sample>, leak: real, c: real)
    requires data != [] && c > NoiseFloor
    requires forall k :: 0 <= k < |data| ==> NetCurrent(data[k], leak) == c
    ensures DepositionRate(data, leak) == Some(c / ElementaryCharge)
  {
    assert NetCurrent(data[0], leak) > NoiseFloor;
    DepositionRateBounds(data, leak, c, c);
  }

  /** The `for`/`break` loop over the targets: the first target at or above the present
      coverage, else the last target; None for an empty list. */
  function TargetFor(targets: seq<real>, present: real): (r: Option<real>)
    ensures r.Some? <==> targets != []
  {
    if targets == [] then None
    else if targets[0] >= present || |targets| == 1 then Some(targets[0])
    else TargetFor(targets[1..], present)
  }

  /** Entry `j` is chosen when every earlier entry is below the present coverage and `j`
      is at or above it, or is the last entry. */
  lemma {:induction false} TargetForAt(targets: seq<real>, present: real, j: nat)
    requires j < |targets| && (targets[j] >= present || j == |targets| - 1)
    requires forall k :: 0 <= k < j ==> targets[k] < present
    ensures TargetFor(targets, present) == Some(targets[j])
  {
    if j > 0 {
      assert targets[0] < present;
      assert forall k :: 0 <= k < j - 1 ==> targets[1..][k] == targets[k + 1];
      TargetForAt(targets[1..], present, j - 1);
    }
  }

  /** The chosen target is the first entry at or above the present coverage, or the last
      entry when none is. */
  lemma TargetForFirstMatch(targets: seq<real>, present: real)
    ensures forall j :: (0 <= j < |targets| && targets[j] >= present &&
                         (forall k :: 0 <= k < j ==> targets[k] < present)) ==>
      TargetFor(targets, present) == Some(targets[j])
    ensures targets != [] && (forall k :: 0 <= k < |targets| ==> targets[k] < present) ==>
      TargetFor(targets, present) == Some(targets[|targets| - 1])
  {
    forall j | 0 <= j < |targets| && targets[j] >= present && (forall k :: 0 <= k < j ==> targets[k] < present)
      ensures TargetFor(targets, present) == Some(targets[j])
    {
      TargetForAt(targets, present, j);
    }
    if targets != [] && forall k :: 0 <= k < |targets| ==> targets[k] < present {
      TargetForAt(targets, present, |targets| - 1);
    }
  }

  /** The target loop of `integrate`, `for coverage in self.target: ... break`. */
  method ChooseTarget(targets: seq<real>, present: real) returns (chosen: Option<real>)
    ensures chosen == TargetFor(targets, present)
  {
    chosen := None;
    var k := 0;
    while k < |targets|
      invariant 0 <= k <= |targets|
      invariant forall j :: 0 <= j < k ==> targets[j] < present
      invariant chosen == if k == 0 then None else Some(targets[|targets| - 1])
    {
      if targets[k] >= present {
        chosen := Some(targets[k]);
        TargetForAt(targets, present, k);
        break;
      }
      chosen := Some(targets[|targets| - 1]);
      k := k + 1;
    }
    if k == |targets| && targets != [] {
      TargetForAt(targets, present, |targets| - 1);
    }
  }

  /** `int()` of the hours, of the remaining minutes and of the remaining seconds. */
  function SplitSeconds(timeLeft: real): (hms: (int, int, int))
    requires timeLeft >= 0.0
    ensures hms.0 >= 0 && 0 <= hms.1 < 60 && 0 <= hms.2 < 60
    ensures (3600 * hms.0 + 60 * hms.1 + hms.2) as real <= timeLeft < (3600 * hms.0 + 60 * hms.1 + hms.2 + 1) as real
  {
    var hours := Trunc(timeLeft / 3600.0);
    var minutes := Trunc((timeLeft - (hours * 3600) as real) / 60.0);
    var seconds := Trunc(timeLeft - (hours * 3600) as real - (minutes * 60) as real);
    (hours, minutes, seconds)
  }

  /** `remaining / dep_rate`: the seconds until the remaining count is deposited. */
  function SecondsLeft(remaining: real, rate: real): (t: real)
    requires rate > 0.0
    ensures remaining >= 0.0 ==> t >= 0.0
  {
    remaining / rate
  }

  /** Everything `integrate` computes from the attributes and the data, or what it raises. */
  function Outcome(st: Settings, data: seq<Sample>): Result<Report, Error>
  {
    if st.leakCurrent.None? then Failure(Missing("leak_current"))
    else if |st.time| == 1 then Failure(MissingUpperBound)
    else Estimate(st, Windowed(data, st.time), st.leakCurrent.value)
  }

  /** What `integrate` reports once the data is narrowed to the window. */
  function Estimate(st: Settings, window: seq<Sample>, leak: real): Result<Report, Error>
  {
    var integral := Integral(window, leak);
    var present :- NumberToCoverage(st, integral);
    if st.target.None? then Failure(NotIterable)
    else if st.target.value == [] then Failure(NoTargetChosen)
    else if present.None? then Failure(NoCoverage)
    else
      var target := TargetFor(st.target.value, present.value).value;
      var number :- CoverageToNumber(st, target);
      Projection(target, present.value, integral, number.value, DepositionRate(window, leak))
  }

  /** The comparison with the target count and, below it, the time estimate from the
      remaining count and the deposition rate. */
  function Projection(target: real, present: real, integral: real, number: real, rate: Option<real>)
    : (r: Result<Report, Error>)
    requires rate.Some? ==> rate.value > 0.0
    ensures (r.Success? && r.value.Exceeded?) <==> number < integral
    ensures r.Failure? <==> integral <= number && rate.None?
    ensures r.Success? && r.value.TimeLeft? ==>
      r.value.hours >= 0 && 0 <= r.value.minutes < 60 && 0 <= r.value.seconds < 60
    ensures r.Success? && r.value.TimeLeft? ==>
      rate.Some? &&
      (3600 * r.value.hours + 60 * r.value.minutes + r.value.seconds) as real
        <= SecondsLeft(number - integral, rate.value)
        < (3600 * r.value.hours + 60 * r.value.minutes + r.value.seconds + 1) as real
  {
    if number < integral then Success(Exceeded(target, present, ToPmol(integral)))
    else if rate.None? then Failure(NaNTime)
    else
      var remaining := number - integral;
      var hms := SplitSeconds(SecondsLeft(remaining, rate.value));
      Success(TimeLeft(ToPmol(integral), present, target, hms.0, hms.1, hms.2))
  }

  /** The time split of a successful estimate on the windowed data: bounded components
      that encode the chosen target's remaining count divided by the deposition rate. */
  lemma EstimateTimeLeft(st: Settings, window: seq<Sample>, leak: real, r: Report)
    requires Estimate(st, window, leak) == Success(r) && r.TimeLeft?
    ensures r.hours >= 0 && 0 <= r.minutes < 60 && 0 <= r.seconds < 60
    ensures CoverageToNumber(st, r.target).Success? && CoverageToNumber(st, r.target).value.Some?
    ensures var integral := Integral(window, leak);
      var rate := DepositionRate(window, leak);
      var number := CoverageToNumber(st, r.target).value.value;
      rate.Some? &&
      (3600 * r.hours + 60 * r.minutes + r.seconds) as real
        <= SecondsLeft(number - integral, rate.value)
        < (3600 * r.hours + 60 * r.minutes + r.seconds + 1) as real
  {
    var integral := Integral(window, leak);
    var present := NumberToCoverage(st, integral).value.value;
    var target := TargetFor(st.target.value, present).value;
    var number := CoverageToNumber(st, target).value.value;
    assert Estimate(st, window, leak) ==
      Projection(target, present, integral, number, DepositionRate(window, leak));
  }

  /** The time split of a successful `integrate` has bounded components, and it is the
      remaining count of the chosen target divided by the deposition rate, truncated to
      whole seconds. */
  lemma TimeLeftBounded(st: Settings, data: seq<Sample>, r: Report)
    requires Outcome(st, data) == Success(r) && r.TimeLeft?
    ensures r.hours >= 0 && 0 <= r.minutes < 60 && 0 <= r.seconds < 60
    ensures st.leakCurrent.Some?
    ensures CoverageToNumber(st, r.target).Success? && CoverageToNumber(st, r.target).value.Some?
    ensures var window := Windowed(data, st.time);
      var integral := Integral(window, st.leakCurrent.value);
      var rate := DepositionRate(window, st.leakCurrent.value);
      var number := CoverageToNumber(st, r.target).value.value;
      rate.Some? &&
      (3600 * r.hours + 60 * r.minutes + r.seconds) as real
        <= SecondsLeft(number - integral, rate.value)
        < (3600 * r.hours + 60 * r.minutes + r.seconds + 1) as real
  {
    var window := Windowed(data, st.time);
    assert Outcome(st, data) == Estimate(st, window, st.leakCurrent.value);
    EstimateTimeLeft(st, window, st.leakCurrent.value, r);
  }

  /** With the conversions defined, the estimate reports "already exceeded" exactly when
      the chosen target lies below the present coverage; in particular whenever every
      target does. */
  lemma ExceededIffTargetBelowCoverage(st: Settings, data: seq<Sample>)
    requires Convertible(st) && st.leakCurrent.Some? && |st.time| != 1
    requires st.target.Some? && st.target.value != []
    ensures var integral := Integral(Windowed(data, st.time), st.leakCurrent.value);
      var present := NumberToCoverage(st, integral).value.value;
      var target := TargetFor(st.target.value, present).value;
      (Outcome(st, data).Success? && Outcome(st, data).value.Exceeded?) <==> target < present
    ensures var integral := Integral(Windowed(data, st.time), st.leakCurrent.value);
      var present := NumberToCoverage(st, integral).value.value;
      (forall k :: 0 <= k < |st.target.value| ==> st.target.value[k] < present) ==>
        Outcome(st, data).Success? && Outcome(st, data).value.Exceeded?
  {
    var leak := st.leakCurrent.value;
    var window := Windowed(data, st.time);
    var integral := Integral(window, leak);
    var present := NumberToCoverage(st, integral).value.value;
    var target := TargetFor(st.target.value, present).value;
    TargetBelowCoverage(st, target, integral);
    var number := CoverageToNumber(st, target).value.value;
    assert Outcome(st, data) == Estimate(st, window, leak);
    assert Estimate(st, window, leak) ==
      Projection(target, present, integral, number, DepositionRate(window, leak));
    if forall k :: 0 <= k < |st.target.value| ==> st.target.value[k] < present {
      TargetForAt(st.target.value, present, |st.target.value| - 1);
    }
  }

  /** The integrator object: the attributes `__init__` sets and the data it works on. */
  class IntegrateCurrent {
    var debugging: bool
    var model: Option<Model>
    var target: Option<seq<real>>
    var time: seq<real>
    var leakCurrent: Option<real>
    var areaParticle: Option<real>
    var areaAperture: Option<real>
    var saDensity: Option<real>
    var data: seq<Sample>
    var depRate: Option<real>
    var presentCoverage: Option<real>

    function Attributes(): Settings
      reads this
    {
      Settings(debugging, model, target, time, leakCurrent, areaParticle, areaAperture, saDensity)
    }

    /** The attributes `__init__` sets before it reads the parameter string, and the data. */
    constructor (data: seq<Sample>)
      ensures Attributes() == Defaults && this.data == data
      ensures depRate == None && presentCoverage == None
    {
      debugging := false;
      model, target, time := None, None, [];
      leakCurrent, areaParticle, areaAperture, saDensity := None, None, None, None;
      this.data := data;
      depRate, presentCoverage := None, None;
    }

    /** One pass of the `if/elif` chain of `__init__`: parses `value` as the key `name`
        demands and stores it in the one attribute that key names; a value that does not
        parse leaves every attribute as it was. */
    method Assign(name: string, value: string, toFloat: FloatParser) returns (outcome: Result<(), ParseError>)
      modifies this
      ensures data == old(data) && depRate == old(depRate) && presentCoverage == old(presentCoverage)
      ensures outcome.Success? ==> ApplyParam(old(Attributes()), name, value, toFloat) == Success(Attributes())
      ensures outcome.Failure? ==> ApplyParam(old(Attributes()), name, value, toFloat) == Failure(outcome.error)
      ensures outcome.Failure? ==> Attributes() == old(Attributes())
    {
      var parsed := ApplyParam(Attributes(), name, value, toFloat);
      if parsed.Failure? {
        return Failure(parsed.error);
      }
      var s := parsed.value;
      outcome := Success(());
      match KeyOf(name)
      case LeakCurrent => leakCurrent := s.leakCurrent;
      case ParticleDiameter => areaParticle := s.areaParticle;
      case ApertureDiameter => areaAperture := s.areaAperture;
      case Debug => debugging := s.debugging;
      case ModelKey => model := s.model;
      case SaDensity => saDensity := s.saDensity;
      case Target => target := s.target;
      case Time => time := s.time;
      case Unrecognised =>
    }

    /** `integrate`: narrows `self.data` to the TIME window and reports the integral, the
        coverage and the time to the next target. */
    method Integrate() returns (r: Result<Report, Error>)
      modifies this`data
      ensures r == Outcome(old(Attributes()), old(data))
      ensures data == if leakCurrent.None? then old(data) else Windowed(old(data), time)
    {
      if leakCurrent.None? {
        return Failure(Missing("leak_current"));
      }
      if time != [] {
        data := AtOrAfter(data, time[0]);
        if |time| < 2 {
          return Failure(MissingUpperBound);
        }
        data := AtOrBefore(data, time[1]);
      }
      r := Evaluate(Attributes(), data, leakCurrent.value);
    }
  }

  /** The part of `integrate` after the narrowing: integral, coverage, target loop and
      time estimate. */
  method Evaluate(st: Settings, window: seq<Sample>, leak: real) returns (r: Result<Report, Error>)
    ensures r == Estimate(st, window, leak)
  {
    var integral := Integral(window, leak);
    var rate := DepositionRate(window, leak);
    var present :- NumberToCoverage(st, integral);
    if st.target.None? {
      return Failure(NotIterable);
    }
    if st.target.value == [] {
      return Failure(NoTargetChosen);
    }
    if present.None? {
      return Failure(NoCoverage);
    }
    var chosen := ChooseTarget(st.target.value, present.value);
    var number :- CoverageToNumber(st, chosen.value);
    r := Projection(chosen.value, present.value, integral, number.value, rate);
  }

  /** `IntegrateCurrent(parameter_string, data)`: the object with the attributes the string
      sets, or the exception `__init__` raises. */
  method Create(parameterString: string, data: seq<Sample>, toFloat: FloatParser)
    returns (r: Result<IntegrateCurrent, ParseError>)
    ensures r.Success? <==> Parse(parameterString, toFloat).Success?
    ensures r.Success? ==>
      fresh(r.value) && r.value.Attributes() == Parse(parameterString, toFloat).value &&
      r.value.data == data && r.value.depRate == None && r.value.presentCoverage == None
    ensures r.Failure? ==> r.error == Parse(parameterString, toFloat).error
  {
    var items := Items(parameterString);
    var session := new IntegrateCurrent(data);
    var k := 0;
    while k < |items|
      invariant 0 <= k <= |items|
      invariant fresh(session)
      invariant session.data == data && session.depRate == None && session.presentCoverage == None
      invariant Parse(parameterString, toFloat) == ApplyItems(session.Attributes(), items[k..], toFloat)
    {
      var pair := SplitPair(items[k]);
      if pair.None? {
        return Failure(MalformedPair(items[k]));
      }
      var outcome := session.Assign(pair.value.0, pair.value.1, toFloat);
      if outcome.Failure? {
        return Failure(outcome.error);
      }
      assert items[k..][1..] == items[k + 1..];
      k := k + 1;
    }
    return Success(session);
  }
}
