/** The particle filter of `particle_filter.py`: particles as mutable objects,
    the weighting pass of the main loop, the weighted mean estimate, and
    resampling of particle lists through `Resampling.Sus`.

    The maze is an oracle: `sensor(x, y)` is the distance to the nearest
    beacon seen from `(x, y)`, and a movement checker is a function of the
    position and the step. */
module Particles {
  import opened Faults
  import opened RealSeqs
  import Resampling

  // ---------------------------------------------------------------------
  // Particles

  /** A hypothesis of the robot's pose with its importance weight `w`. */
  class Particle {
    var x: real
    var y: real
    var h: real
    var w: real

    /** A particle at `(x0, y0)` heading `h0` with weight `w0`; random
        headings and construction noise are the caller's choice here. */
    constructor (x0: real, y0: real, h0: real, w0: real)
      ensures x == x0 && y == y0 && h == h0 && w == w0
    {
      x, y, h, w := x0, y0, h0, w0;
    }

    /** Shifts the position by `(dx, dy)`; heading and weight stay. */
    method MoveBy(dx: real, dy: real)
      modifies this`x, this`y
      ensures x == old(x) + dx && y == old(y) + dy
      ensures h == old(h) && w == old(w)
    {
      x := x + dx;
      y := y + dy;
    }

    /** The checked step of `advance_by`, given the step `(dx, dy)` already
        computed from heading and speed: without a checker, or when the
        checker accepts the step from the current position, the particle
        moves and the answer is `true`; otherwise nothing changes. */
    method AdvanceBy(dx: real, dy: real, checker: Option<(real, real, real, real) -> bool>)
      returns (moved: bool)
      modifies this`x, this`y
      ensures moved <==> checker.None? || checker.value(old(x), old(y), dx, dy)
      ensures moved ==> x == old(x) + dx && y == old(y) + dy
      ensures !moved ==> x == old(x) && y == old(y)
      ensures h == old(h) && w == old(w)
    {
      if checker.None? || checker.value(x, y, dx, dy) {
        MoveBy(dx, dy);
        return true;
      }
      return false;
    }
  }

  /** The coordinates and the weights of a particle list, in list order. */
  function Xs(ps: seq<Particle>): (r: seq<real>)
    reads ps`x
    ensures |r| == |ps| && forall k :: 0 <= k < |ps| ==> r[k] == ps[k].x
  {
    if ps == [] then [] else Xs(ps[..|ps| - 1]) + [ps[|ps| - 1].x]
  }

  function Ys(ps: seq<Particle>): (r: seq<real>)
    reads ps`y
    ensures |r| == |ps| && forall k :: 0 <= k < |ps| ==> r[k] == ps[k].y
  {
    if ps == [] then [] else Ys(ps[..|ps| - 1]) + [ps[|ps| - 1].y]
  }

  function Weights(ps: seq<Particle>): (r: seq<real>)
    reads ps`w
    ensures |r| == |ps| && forall k :: 0 <= k < |ps| ==> r[k] == ps[k].w
  {
    if ps == [] then [] else Weights(ps[..|ps| - 1]) + [ps[|ps| - 1].w]
  }

  /** No particle object occurs twice in the list. */
  predicate NoDuplicates(ps: seq<Particle>)
  {
    forall i, j :: 0 <= i < j < |ps| ==> ps[i] != ps[j]
  }

  // ---------------------------------------------------------------------
  // The weighting pass

  function Abs(r: real): real
  {
    if r < 0.0 then -r else r
  }

  /** The smallest deviation the weighting admits, which caps every weight. */
  const MinDeviation: real := 0.00001

  /** The weight of a particle whose sensor reads `d` while the robot reads
      `rd`: the reciprocal of their distance, that distance taken to be at
      least `MinDeviation`. */
  function Likelihood(d: real, rd: real): (l: real)
    ensures 0.0 < l <= 100000.0
  {
    var dev := if Abs(d - rd) > MinDeviation then Abs(d - rd) else MinDeviation;
    1.0 / dev
  }

  /** Beyond `MinDeviation` the weight is exactly the reciprocal distance;
      within it, the weight is the cap. */
  lemma {:induction false} LikelihoodReciprocal(d: real, rd: real)
    ensures Abs(d - rd) >= MinDeviation ==> Likelihood(d, rd) * Abs(d - rd) == 1.0
    ensures Abs(d - rd) <= MinDeviation ==> Likelihood(d, rd) == 100000.0
  {
  }

  /** A reading closer to the robot's never gets a smaller weight. */
  lemma {:induction false} LikelihoodAntitone(d1: real, d2: real, rd: real)
    requires Abs(d1 - rd) <= Abs(d2 - rd)
    ensures Likelihood(d2, rd) <= Likelihood(d1, rd)
  {
    var e1 := if Abs(d1 - rd) > MinDeviation then Abs(d1 - rd) else MinDeviation;
    var e2 := if Abs(d2 - rd) > MinDeviation then Abs(d2 - rd) else MinDeviation;
    ReciprocalAntitone(e1, e2);
  }

  lemma {:induction false} ReciprocalAntitone(a: real, b: real)
    requires 0.0 < a <= b
    ensures 1.0 / b <= 1.0 / a
  {
    assert (1.0 / b) * b == 1.0;
    assert (1.0 / a) * a == 1.0;
  }

  /** What the sensor reads at `(x, y)`. */
  function ReadAt(sensor: (real, real) -> real, x: real, y: real): real
  {
    sensor(x, y)
  }

  /** What each listed particle's sensor reads at its position. */
  function Readings(ps: seq<Particle>, sensor: (real, real) -> real): (ds: seq<real>)
    reads ps`x, ps`y
    ensures |ds| == |ps| && forall k :: 0 <= k < |ps| ==> ds[k] == ReadAt(sensor, ps[k].x, ps[k].y)
  {
    if ps == [] then [] else Readings(ps[..|ps| - 1], sensor) + [ReadAt(sensor, ps[|ps| - 1].x, ps[|ps| - 1].y)]
  }

  /** The weights the pass assigns to readings `ds`, in order. */
  function Likelihoods(ds: seq<real>, rd: real): (ls: seq<real>)
    ensures |ls| == |ds|
  {
    seq(|ds|, k requires 0 <= k < |ds| => Likelihood(ds[k], rd))
  }

  /** Every likelihood of the weighting pass is positive and at most `1e5`. */
  lemma {:induction false} LikelihoodsBounded(ds: seq<real>, rd: real)
    ensures Positive(Likelihoods(ds, rd))
    ensures forall k :: 0 <= k < |ds| ==> Likelihoods(ds, rd)[k] <= 100000.0
  {
    forall k | 0 <= k < |ds|
      ensures 0.0 < Likelihoods(ds, rd)[k] <= 100000.0
    {
      assert Likelihoods(ds, rd)[k] == Likelihood(ds[k], rd);
    }
  }

  /** `t` multiplied by itself `n` times. */
  function Power(t: real, n: nat): (r: real)
    ensures t > 0.0 ==> r > 0.0
  {
    if n == 0 then 1.0 else Power(t, n - 1) * t
  }

  /** The first loop of the weighting pass: each particle's weight is set to
      `Likelihood` of its reading, and the returned total adds one weight
      per list entry. */
  method AssignLikelihoods(ps: seq<Particle>, sensor: (real, real) -> real, rd: real)
    returns (weightSum: real)
    modifies ps`w
    ensures forall j :: 0 <= j < |ps| ==> ps[j].w == Likelihoods(Readings(ps, sensor), rd)[j]
    ensures weightSum == Sum(Likelihoods(Readings(ps, sensor), rd))
  {
    ghost var ds := Readings(ps, sensor);
    ghost var ls := Likelihoods(ds, rd);
    weightSum := 0.0;
    var k := 0;
    while k < |ps|
      invariant 0 <= k <= |ps|
      invariant forall j :: 0 <= j < k ==> ps[j].w == Likelihood(ReadAt(sensor, ps[j].x, ps[j].y), rd)
      invariant weightSum == Sum(ls[..k])
    {
      LikelihoodOf(ps, sensor, rd, k);
      var l := SetLikelihood(ps[k], sensor, rd);
      SumPrefixStep(ls, k);
      weightSum := weightSum + l;
      k := k + 1;
    }
    assert ls[..k] == ls;
    assert Readings(ps, sensor) == ds;
    forall j | 0 <= j < |ps|
      ensures ps[j].w == ls[j]
    {
      LikelihoodOf(ps, sensor, rd, j);
    }
  }

  /** One step of the first loop: read the sensor at the particle's position
      and store the likelihood of that reading as its weight. */
  method SetLikelihood(p: Particle, sensor: (real, real) -> real, rd: real) returns (l: real)
    modifies p`w
    ensures l == Likelihood(ReadAt(sensor, p.x, p.y), rd) && p.w == l
  {
    var d := ReadAt(sensor, p.x, p.y);
    p.w := Likelihood(d, rd);
    l := p.w;
  }

  /** Entry `j` of the likelihoods is the likelihood of particle `j`'s reading. */
  lemma {:induction false} LikelihoodOf(ps: seq<Particle>, sensor: (real, real) -> real, rd: real, j: nat)
    requires j < |ps|
    ensures Likelihoods(Readings(ps, sensor), rd)[j] == Likelihood(ReadAt(sensor, ps[j].x, ps[j].y), rd)
  {
  }

  /** The second loop of the weighting pass: every list entry's weight is
      divided by `weightSum`, so a particle object listed `m` times ends up
      divided `m` times. */
  method DivideWeights(ps: seq<Particle>, weightSum: real)
    requires weightSum > 0.0
    modifies ps`w
    ensures forall j :: 0 <= j < |ps| ==> ps[j].w == old(ps[j].w) / Power(weightSum, Occurrences(ps, ps[j]))
  {
    ghost var ws := Weights(ps);
    var k := 0;
    while k < |ps|
      invariant 0 <= k <= |ps|
      invariant forall j :: 0 <= j < |ps| ==> ps[j].w == DividedBy(ws[j], weightSum, Occurrences(ps[..k], ps[j]))
    {
      label Before:
      ps[k].w := ps[k].w / weightSum;
      forall j | 0 <= j < |ps|
        ensures ps[j].w == DividedBy(ws[j], weightSum, Occurrences(ps[..k + 1], ps[j]))
      {
        OccurrencesStep(ps, k, ps[j]);
        if ps[j] != ps[k] {
          assert ps[j].w == old@Before(ps[j].w);
        }
      }
      k := k + 1;
    }
    assert ps[..k] == ps;
    forall j | 0 <= j < |ps|
      ensures ps[j].w == ws[j] / Power(weightSum, Occurrences(ps, ps[j]))
    {
      DividedByPower(ws[j], weightSum, Occurrences(ps, ps[j]));
    }
  }

  /** `v` divided `n` times by `t`. */
  function DividedBy(v: real, t: real, n: nat): real
    requires t != 0.0
  {
    if n == 0 then v else DividedBy(v, t, n - 1) / t
  }

  /** Dividing `n` times by `t` divides by the `n`-th power of `t`. */
  lemma {:induction false} DividedByPower(v: real, t: real, n: nat)
    requires t > 0.0
    ensures DividedBy(v, t, n) == v / Power(t, n)
  {
    if n > 0 {
      DividedByPower(v, t, n - 1);
      DivideTwice(v, Power(t, n - 1), t);
    }
  }

  lemma {:induction false} DivideTwice(a: real, b: real, t: real)
    requires b > 0.0 && t > 0.0
    ensures a / b / t == a / (b * t)
  {
  }

  /** The weighting pass of the main loop: each particle's weight becomes
      `Likelihood` of its reading, divided by the total once per list entry
      of that particle. When no particle object is listed twice the new
      weights are the likelihoods normalised: positive and summing to 1. */
  method Weigh(ps: seq<Particle>, sensor: (real, real) -> real, rd: real)
    modifies ps`w
    ensures ps != [] ==> Sum(Likelihoods(Readings(ps, sensor), rd)) > 0.0
    ensures forall k :: 0 <= k < |ps| ==>
      ps[k].w == Likelihoods(Readings(ps, sensor), rd)[k] / Power(Sum(Likelihoods(Readings(ps, sensor), rd)), Occurrences(ps, ps[k]))
    ensures ps != [] && NoDuplicates(ps) ==>
      Weights(ps) == Divide(Likelihoods(Readings(ps, sensor), rd), Sum(Likelihoods(Readings(ps, sensor), rd))) &&
      Positive(Weights(ps)) && Sum(Weights(ps)) == 1.0
  {
    var weightSum := AssignLikelihoods(ps, sensor, rd);
    ghost var ds := Readings(ps, sensor);
    ghost var ls := Likelihoods(ds, rd);
    if ps != [] {
      assert weightSum > 0.0 by {
        assert Positive(ls);
        SumPositive(ls);
      }
      DivideWeights(ps, weightSum);
      assert Readings(ps, sensor) == ds;
      assert forall k :: 0 <= k < |ps| ==> ps[k].w == ls[k] / Power(weightSum, Occurrences(ps, ps[k]));
      if NoDuplicates(ps) {
        NormalisedWhenDistinct(ps, ls, weightSum);
      }
    }
  }

  /** Without shared entries each weight was divided by the total exactly
      once, so the weights are the normalised likelihoods. */
  lemma {:induction false} NormalisedWhenDistinct(ps: seq<Particle>, ls: seq<real>, t: real)
    requires |ls| == |ps| && NoDuplicates(ps) && Positive(ls)
    requires t == Sum(ls) && t > 0.0
    requires forall j :: 0 <= j < |ps| ==> ps[j].w == ls[j] / Power(t, Occurrences(ps, ps[j]))
    ensures Weights(ps) == Divide(ls, t)
    ensures Positive(Weights(ps)) && Sum(Weights(ps)) == 1.0
  {
    assert Power(t, 1) == t;
    forall j | 0 <= j < |ps|
      ensures Weights(ps)[j] == Divide(ls, t)[j] && Weights(ps)[j] > 0.0
    {
      OccurrencesOnce(ps, j);
      QuotientPositive(ls[j], t);
    }
    assert Weights(ps) == Divide(ls, t);
    assert Sum(Divide(ls, t)) == 1.0 by {
      SumDivide(ls, t);
      SelfQuotient(t);
    }
  }

  lemma {:induction false} QuotientPositive(a: real, t: real)
    requires a > 0.0 && t > 0.0
    ensures a / t > 0.0
  {
  }

  /** In a list without duplicates every entry occurs exactly once. */
  lemma {:induction false} OccurrencesOnce(ps: seq<Particle>, j: nat)
    requires NoDuplicates(ps) && j < |ps|
    ensures Occurrences(ps, ps[j]) == 1
  {
    var n := |ps| - 1;
    if j < n {
      OccurrencesOnce(ps[..n], j);
    } else {
      OccurrencesAbsent(ps[..n], ps[j]);
    }
  }

  lemma {:induction false} OccurrencesAbsent(ps: seq<Particle>, p: Particle)
    requires forall k :: 0 <= k < |ps| ==> ps[k] != p
    ensures Occurrences(ps, p) == 0
  {
    if ps != [] {
      OccurrencesAbsent(ps[..|ps| - 1], p);
    }
  }

  // ---------------------------------------------------------------------
  // The weighted mean

  /** The first half of `compute_mean_point`: no estimate (the source's
      `(-1, -1, False)`) when the weights total zero, else the weighted mean
      position. */
  datatype Estimate = NoEstimate | Mean(x: real, y: real)

  /** The weighted mean of the points `(xs[k], ys[k])` under weights `ws`. */
  function WeightedMean(xs: seq<real>, ys: seq<real>, ws: seq<real>): (e: Estimate)
    requires |xs| == |ws| && |ys| == |ws|
    ensures e.NoEstimate? <==> Sum(ws) == 0.0
    ensures e.Mean? ==> e.x * Sum(ws) == Dot(xs, ws) && e.y * Sum(ws) == Dot(ys, ws)
  {
    if Sum(ws) == 0.0 then NoEstimate
    else Mean(Dot(xs, ws) / Sum(ws), Dot(ys, ws) / Sum(ws))
  }

  /** Accumulates the total weight and the weighted coordinates in one pass,
      then divides unless the total is zero. */
  method ComputeMeanPoint(ps: seq<Particle>) returns (e: Estimate)
    ensures e == WeightedMean(Xs(ps), Ys(ps), Weights(ps))
  {
    ghost var xs, ys, ws := Xs(ps), Ys(ps), Weights(ps);
    var mX, mY, mCount := 0.0, 0.0, 0.0;
    var k := 0;
    while k < |ps|
      invariant 0 <= k <= |ps|
      invariant mCount == Sum(ws[..k])
      invariant mX == Dot(xs[..k], ws[..k]) && mY == Dot(ys[..k], ws[..k])
    {
      var p := ps[k];
      assert p.x == xs[k] && p.y == ys[k] && p.w == ws[k];
      mCount := mCount + p.w;
      mX := mX + p.x * p.w;
      mY := mY + p.y * p.w;
      assert mCount == Sum(ws[..k + 1]) by {
        SumPrefixStep(ws, k);
      }
      assert mX == Dot(xs[..k + 1], ws[..k + 1]) by {
        DotPrefixStep(xs, ws, k);
      }
      assert mY == Dot(ys[..k + 1], ws[..k + 1]) by {
        DotPrefixStep(ys, ws, k);
      }
      k := k + 1;
    }
    assert xs[..k] == xs && ys[..k] == ys && ws[..k] == ws;
    if mCount == 0.0 {
      return NoEstimate;
    }
    mX := mX / mCount;
    mY := mY / mCount;
    return Mean(mX, mY);
  }

  /** With non-negative weights there is no estimate exactly when every
      weight is zero. */
  lemma {:induction false} NoEstimateIff(xs: seq<real>, ys: seq<real>, ws: seq<real>)
    requires |xs| == |ws| && |ys| == |ws| && NonNegative(ws)
    ensures WeightedMean(xs, ys, ws) == NoEstimate <==> forall k :: 0 <= k < |ws| ==> ws[k] == 0.0
  {
    SumZero(ws);
  }

  /** With non-negative weights the mean lies in every axis-parallel box
      that holds all the points. */
  lemma {:induction false} MeanInBox(xs: seq<real>, ys: seq<real>, ws: seq<real>, x0: real, x1: real, y0: real, y1: real)
    requires |xs| == |ws| && |ys| == |ws| && NonNegative(ws)
    requires forall k :: 0 <= k < |ws| ==> x0 <= xs[k] <= x1 && y0 <= ys[k] <= y1
    requires Sum(ws) != 0.0
    ensures WeightedMean(xs, ys, ws).Mean?
    ensures x0 <= WeightedMean(xs, ys, ws).x <= x1
    ensures y0 <= WeightedMean(xs, ys, ws).y <= y1
  {
    forall k | 0 <= k < |ws|
      ensures x0 <= xs[k] <= x1
    {
    }
    forall k | 0 <= k < |ws|
      ensures y0 <= ys[k] <= y1
    {
    }
    MeanBetween(xs, ws, x0, x1);
    MeanBetween(ys, ws, y0, y1);
  }

  /** One coordinate of `MeanInBox`. */
  lemma {:induction false} MeanBetween(xs: seq<real>, ws: seq<real>, lo: real, hi: real)
    requires |xs| == |ws| && NonNegative(ws) && Sum(ws) != 0.0
    requires forall k :: 0 <= k < |xs| ==> lo <= xs[k] <= hi
    ensures lo <= Dot(xs, ws) / Sum(ws) <= hi
  {
    assert Sum(ws) > 0.0 by {
      SumNonNegative(ws);
    }
    assert lo * Sum(ws) <= Dot(xs, ws) <= hi * Sum(ws) by {
      DotBounds(xs, ws, lo, hi);
    }
    QuotientBounds(Dot(xs, ws), Sum(ws), lo, hi);
  }

  lemma {:induction false} QuotientBounds(d: real, s: real, lo: real, hi: real)
    requires s > 0.0 && lo * s <= d <= hi * s
    ensures lo <= d / s <= hi
  {
    assert (d / s) * s == d;
  }

  /** Dropping a particle of weight zero changes neither the verdict nor
      the mean. */
  lemma {:induction false} ZeroWeightIgnored(xs: seq<real>, ys: seq<real>, ws: seq<real>, k: nat)
    requires |xs| == |ws| && |ys| == |ws| && k < |ws| && ws[k] == 0.0
    ensures WeightedMean(xs[..k] + xs[k + 1..], ys[..k] + ys[k + 1..], ws[..k] + ws[k + 1..])
         == WeightedMean(xs, ys, ws)
  {
    DropZero(xs, ws, k);
    DropZero(ys, ws, k);
  }

  lemma {:induction false} DropZero(xs: seq<real>, ws: seq<real>, k: nat)
    requires |xs| == |ws| && k < |ws| && ws[k] == 0.0
    ensures Sum(ws[..k] + ws[k + 1..]) == Sum(ws)
    ensures Dot(xs[..k] + xs[k + 1..], ws[..k] + ws[k + 1..]) == Dot(xs, ws)
  {
    SumRemove(ws, k);
    DotRemoveZero(xs, ws, k);
  }

  // ---------------------------------------------------------------------
  // Resampling particle lists

  /** The particle `sus` picks for entry `k` of its result. */
  predicate SameState(p: Particle, q: Particle)
    reads p, q
  {
    p.x == q.x && p.y == q.y && p.h == q.h && p.w == q.w
  }

  /** The main loop's turn as written: `sus` on the weighted list (line 227),
      then the weighting pass on the new list at the next reading. The new
      list holds the selected objects themselves, so each weight is divided
      once per entry that shares its object. */
  method ResampleSharedThenWeigh(ps: seq<Particle>, start: real, sensor: (real, real) -> real, rd: real)
    returns (r: Result<seq<Particle>>)
    modifies ps`w
    ensures |ps| == 0 <==> r == Err(ZeroDivisionError)
    ensures r.Ok? ==> |r.value| == |ps| && forall k :: 0 <= k < |r.value| ==> r.value[k] in ps
    ensures r.Ok? ==> Sum(Likelihoods(Readings(r.value, sensor), rd)) > 0.0
    ensures r.Ok? ==> forall k :: 0 <= k < |r.value| ==>
      r.value[k].w == Likelihoods(Readings(r.value, sensor), rd)[k]
                      / Power(Sum(Likelihoods(Readings(r.value, sensor), rd)), Occurrences(r.value, r.value[k]))
  {
    r := SusShared(ps, start);
    if r.Ok? {
      Weigh(r.value, sensor, rd);
    }
  }

  /** `sus` on a particle list: the result holds the selected objects
      themselves, one entry per particle of the input. */
  method SusShared(ps: seq<Particle>, start: real) returns (r: Result<seq<Particle>>)
    ensures |ps| == 0 <==> r == Err(ZeroDivisionError)
    ensures r.Ok? ==> |r.value| == |ps| && forall k :: 0 <= k < |r.value| ==> r.value[k] in ps
    ensures |ps| > 0 ==>
      var ptrs := Resampling.Pointers(start, Sum(Weights(ps)) / (|ps| as real), |ps|);
      (r.Ok? <==> Resampling.AllReached(Weights(ps), ptrs)) &&
      (r.Ok? ==> Resampling.AllReached(Weights(ps), ptrs) && |r.value| == |ps| &&
                 forall k :: 0 <= k < |ps| ==> r.value[k] == ps[Resampling.Select(Weights(ps), ptrs[k])])
  {
    r := Resampling.Sus(ps, Weights(ps), start);
    if r.Ok? {
      assert forall k :: 0 <= k < |r.value| ==> r.value[k] in ps;
    }
  }

  /** Two particles weighted 0.9 and 0.1, as a normalised weighting pass can
      leave them (likelihoods in the ratio 9 to 1): `sus` with start
      offset 0.25 picks the first one twice, and after the next weighting
      pass the list's weights sum to 0.5 rather than 1. */
  method SharedCopiesBreakNormalisation() returns (ps: seq<Particle>)
    ensures |ps| == 2 && ps[0] == ps[1]
    ensures Sum(Weights(ps)) == 0.5
  {
    ps := SusPicksFirstTwice();
    var sensor := (x: real, y: real) => 2.0;
    assert Readings(ps, sensor) == [2.0, 2.0];
    EqualLikelihoods();
    Weigh(ps, sensor, 1.0);
    assert ps[0].w == 1.0 / Power(2.0, Occurrences(ps, ps[0]));
    QuarterEach(ps);
  }

  /** One object listed twice, divided by the total 2 once per entry: each
      entry weighs a quarter and the list half. */
  lemma {:induction false} QuarterEach(ps: seq<Particle>)
    requires |ps| == 2 && ps[0] == ps[1]
    requires ps[0].w == 1.0 / Power(2.0, Occurrences(ps, ps[0]))
    ensures Sum(Weights(ps)) == 0.5
  {
    assert Occurrences(ps, ps[0]) == 2 by {
      TwiceOccurs(ps[0]);
    }
    assert Power(2.0, Occurrences(ps, ps[0])) == 4.0;
    assert Weights(ps) == [0.25, 0.25];
    HalfTotal();
  }

  /** The resampling half of the example: weights 0.9 and 0.1, offset 0.25. */
  method SusPicksFirstTwice() returns (ps: seq<Particle>)
    ensures |ps| == 2 && ps[0] == ps[1] && fresh(ps[0])
    ensures ps[0].x == 0.0 && ps[0].y == 0.0
  {
    var a := new Particle(0.0, 0.0, 0.0, 0.9);
    var b := new Particle(1.0, 0.0, 0.0, 0.1);
    assert Weights([a, b]) == [0.9, 0.1];
    PicksFirstTwice(Weights([a, b]));
    var r := SusShared([a, b], 0.25);
    ps := r.value;
    assert ps[0] == a && ps[1] == a;
  }

  lemma {:induction false} TwiceOccurs<T>(x: T)
    ensures Occurrences([x, x], x) == 2
  {
    assert [x, x][..1] == [x] && [x][..0] == [];
    assert Occurrences([x], x) == 1;
  }

  lemma {:induction false} HalfTotal()
    ensures Sum([0.25, 0.25]) == 0.5
  {
    assert [0.25, 0.25][..1] == [0.25] && [0.25][..0] == [];
  }

  /** Weights 0.9 and 0.1 with offset 0.25: both pointers select particle 0. */
  lemma {:induction false} PicksFirstTwice(ws: seq<real>)
    requires ws == [0.9, 0.1]
    ensures var ptrs := Resampling.Pointers(0.25, Sum(ws) / (|ws| as real), |ws|);
      Resampling.AllReached(ws, ptrs) &&
      Resampling.Select(ws, ptrs[0]) == 0 && Resampling.Select(ws, ptrs[1]) == 0
  {
    assert ws[..1] == [0.9] && [0.9][..0] == [];
    assert Sum(ws) == 1.0;
    var ptrs := Resampling.Pointers(0.25, Sum(ws) / (|ws| as real), |ws|);
    assert ptrs == [0.25, 0.75];
    assert Resampling.Cum(ws, 0) == 0.9;
    assert Resampling.Reached(ws, 0.25) && Resampling.Reached(ws, 0.75);
  }

  /** Two equal readings 2.0 against 1.0 give likelihoods 1 each, total 2. */
  lemma {:induction false} EqualLikelihoods()
    ensures Likelihoods([2.0, 2.0], 1.0) == [1.0, 1.0]
    ensures Sum([1.0, 1.0]) == 2.0 && Power(2.0, 2) == 4.0
  {
    assert Likelihood(2.0, 1.0) == 1.0;
    assert [1.0, 1.0][..1] == [1.0] && [1.0][..0] == [];
  }

  /** Resampling as the filter intends it: `sus` selects as before, and each
      selected particle is copied into a fresh object. */
  method ResampleCopies(ps: seq<Particle>, start: real) returns (r: Result<seq<Particle>>)
    ensures |ps| == 0 <==> r == Err(ZeroDivisionError)
    ensures |ps| > 0 ==>
      var ptrs := Resampling.Pointers(start, Sum(Weights(ps)) / (|ps| as real), |ps|);
      (r.Ok? <==> Resampling.AllReached(Weights(ps), ptrs)) &&
      (r.Ok? ==> Resampling.AllReached(Weights(ps), ptrs) && |r.value| == |ps| &&
                 forall k :: 0 <= k < |ps| ==> SameState(r.value[k], ps[Resampling.Select(Weights(ps), ptrs[k])]))
    ensures r.Ok? ==> NoDuplicates(r.value) && forall k :: 0 <= k < |r.value| ==> fresh(r.value[k])
  {
    var picked := SusShared(ps, start);
    if picked.Err? {
      return Err(picked.fault);
    }
    var copies := CopyAll(picked.value);
    return Ok(copies);
  }

  /** A fresh particle with the same state for every entry of `sel`. */
  method CopyAll(sel: seq<Particle>) returns (copies: seq<Particle>)
    ensures |copies| == |sel|
    ensures forall j :: 0 <= j < |sel| ==> fresh(copies[j]) && SameState(copies[j], sel[j])
    ensures NoDuplicates(copies)
  {
    copies := [];
    var k := 0;
    while k < |sel|
      invariant 0 <= k <= |sel|
      invariant |copies| == k
      invariant forall j :: 0 <= j < k ==> fresh(copies[j]) && SameState(copies[j], sel[j])
      invariant NoDuplicates(copies)
    {
      var q := new Particle(sel[k].x, sel[k].y, sel[k].h, sel[k].w);
      copies := copies + [q];
      k := k + 1;
    }
  }

  /** The corrected turn: resample into fresh copies, then weigh. Now the
      weights are the normalised likelihoods, positive and summing to 1. */
  method ResampleThenWeigh(ps: seq<Particle>, start: real, sensor: (real, real) -> real, rd: real)
    returns (r: Result<seq<Particle>>)
    ensures |ps| == 0 <==> r == Err(ZeroDivisionError)
    ensures r.Ok? ==> |r.value| == |ps| && NoDuplicates(r.value)
    ensures r.Ok? ==> Positive(Weights(r.value)) && Sum(Weights(r.value)) == 1.0
  {
    r := ResampleCopies(ps, start);
    if r.Ok? {
      Weigh(r.value, sensor, rd);
    }
  }
}
