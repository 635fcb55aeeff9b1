/** The 1-D histogram (discrete Bayes) filter shared by both localization
    scripts: `sense` reweighs a belief over the cells of a cyclic world by how
    well each cell's colour explains a reading, and `move` shifts the belief
    by a motion command with a three-tap blur. The scripts differ only in
    their constants, which are the parameters here. */
module Histogram {
  import opened Faults
  import opened RealSeqs

  /** The colour of every cell, and the likelihood of the reading when it
      matches (`pHit`) or does not match (`pMiss`) the cell's colour. */
  datatype SensorModel = SensorModel(world: seq<string>, pHit: real, pMiss: real)

  /** How likely a motion by `u` cells lands exactly, one cell too far, or
      one cell short. */
  datatype MotionModel = MotionModel(exact: real, overshoot: real, undershoot: real)

  // ---------------------------------------------------------------------
  // sense

  /** `hit * pHit + (1 - hit) * pMiss`, with the truth value of the colour
      comparison counted as 1 or 0. */
  function Factor(hit: bool, pHit: real, pMiss: real): (f: real)
    ensures f == if hit then pHit else pMiss
  {
    var b := if hit then 1.0 else 0.0;
    b * pHit + (1.0 - b) * pMiss
  }

  /** The list `q` after the first loop of `sense`: each cell's prior times
      the likelihood of reading `z` there. */
  function Unnormalised(m: SensorModel, p: seq<real>, z: string): (q: seq<real>)
    requires |p| <= |m.world|
    ensures |q| == |p|
  {
    seq(|p|, i requires 0 <= i < |p| => p[i] * Factor(z == m.world[i], m.pHit, m.pMiss))
  }

  /** What `sense(p, z)` returns or raises. Indexing the colour map past its
      end raises `IndexError` before anything is divided; an empty belief
      comes back empty; a zero total raises `ZeroDivisionError` at the first
      division. */
  function Posterior(m: SensorModel, p: seq<real>, z: string): (r: Result<seq<real>>)
    ensures r == Err(IndexError) <==> |p| > |m.world|
    ensures r.Ok? ==> |r.value| == |p|
    ensures r.Ok? && p != [] ==> Sum(Unnormalised(m, p, z)) != 0.0
  {
    if |p| > |m.world| then Err(IndexError)
    else
      var q := Unnormalised(m, p, z);
      if q == [] then Ok([])
      else if Sum(q) == 0.0 then Err(ZeroDivisionError)
      else Ok(Divide(q, Sum(q)))
  }

  /** `sense`: build `q` by appending, total it, then divide every entry of
      `q` by the total in place. */
  method Sense(m: SensorModel, p: seq<real>, z: string) returns (r: Result<seq<real>>)
    ensures r == Posterior(m, p, z)
  {
    var q: seq<real> := [];
    var i := 0;
    while i < |p|
      invariant 0 <= i <= |p| && i <= |m.world|
      invariant q == Unnormalised(m, p[..i], z)
    {
      if i >= |m.world| {
        return Err(IndexError);
      }
      UnnormalisedStep(m, p, z, i);
      q := q + [p[i] * Factor(z == m.world[i], m.pHit, m.pMiss)];
      i := i + 1;
    }
    assert p[..i] == p;
    assert q == Unnormalised(m, p, z);
    ghost var q0 := q;
    var s := Sum(q);
    i := 0;
    while i < |q|
      invariant 0 <= i <= |q| == |q0|
      invariant i == 0 ==> q == q0
      invariant i > 0 ==> s != 0.0 && q == Divide(q0[..i], s) + q0[i..]
    {
      if s == 0.0 {
        return Err(ZeroDivisionError);
      }
      assert q0[..i + 1] == q0[..i] + [q0[i]];
      q := q[i := q[i] / s];
      i := i + 1;
    }
    assert q0 == Unnormalised(m, p, z);
    if q0 != [] {
      assert q0[..i] == q0 && q0[i..] == [];
      assert q == Divide(q0, s);
    }
    return Ok(q);
  }

  lemma {:induction false} UnnormalisedStep(m: SensorModel, p: seq<real>, z: string, i: nat)
    requires i < |p| && i < |m.world|
    ensures Unnormalised(m, p[..i + 1], z)
         == Unnormalised(m, p[..i], z) + [p[i] * Factor(z == m.world[i], m.pHit, m.pMiss)]
  {
    var a := Unnormalised(m, p[..i + 1], z);
    var b := Unnormalised(m, p[..i], z) + [p[i] * Factor(z == m.world[i], m.pHit, m.pMiss)];
    forall k | 0 <= k < i + 1
      ensures a[k] == b[k]
    {
      assert p[..i + 1][k] == p[k];
      if k < i {
        assert p[..i][k] == p[k];
      }
    }
  }

  /** Each error is raised exactly in its own case. */
  lemma {:induction false} PosteriorFaults(m: SensorModel, p: seq<real>, z: string)
    ensures Posterior(m, p, z) == Err(IndexError) <==> |p| > |m.world|
    ensures Posterior(m, p, z) == Err(ZeroDivisionError) <==>
      |p| <= |m.world| && p != [] && Sum(Unnormalised(m, p, z)) == 0.0
    ensures Posterior(m, p, z).Ok? <==>
      |p| <= |m.world| && (p == [] || Sum(Unnormalised(m, p, z)) != 0.0)
  {
  }

  /** Bayes' rule, cell by cell: the posterior is the prior times the
      likelihood of the reading under the cell's colour, over the total. */
  lemma {:induction false} PosteriorEntries(m: SensorModel, p: seq<real>, z: string)
    requires Posterior(m, p, z).Ok?
    ensures |Posterior(m, p, z).value| == |p|
    ensures p != [] ==>
      var s := Sum(Unnormalised(m, p, z));
      s != 0.0 &&
      forall i :: 0 <= i < |p| ==>
        Posterior(m, p, z).value[i] == (if z == m.world[i] then p[i] * m.pHit else p[i] * m.pMiss) / s
  {
    if p != [] {
      var q := Unnormalised(m, p, z);
      var s := Sum(q);
      assert s != 0.0;
      var r := Divide(q, s);
      assert Posterior(m, p, z) == Ok(r);
      forall i | 0 <= i < |p|
        ensures r[i] == (if z == m.world[i] then p[i] * m.pHit else p[i] * m.pMiss) / s
      {
        UnnormalisedAt(m, p, z, i);
      }
    }
  }

  lemma {:induction false} UnnormalisedAt(m: SensorModel, p: seq<real>, z: string, i: nat)
    requires |p| <= |m.world| && i < |p|
    ensures Unnormalised(m, p, z)[i] == if z == m.world[i] then p[i] * m.pHit else p[i] * m.pMiss
  {
  }

  /** A successful non-empty posterior sums to one, and is non-negative when
      the prior and the likelihoods are. */
  lemma {:induction false} PosteriorNormalised(m: SensorModel, p: seq<real>, z: string)
    requires Posterior(m, p, z).Ok? && p != []
    ensures Sum(Posterior(m, p, z).value) == 1.0
    ensures NonNegative(p) && m.pHit >= 0.0 && m.pMiss >= 0.0 ==> NonNegative(Posterior(m, p, z).value)
  {
    var q := Unnormalised(m, p, z);
    SumDivide(q, Sum(q));
    SelfQuotient(Sum(q));
    if NonNegative(p) && m.pHit >= 0.0 && m.pMiss >= 0.0 {
      assert NonNegative(q) by {
        forall i | 0 <= i < |q|
          ensures q[i] >= 0.0
        {
          ProductNonNegative(p[i], Factor(z == m.world[i], m.pHit, m.pMiss));
        }
      }
      SumNonNegative(q);
      forall i | 0 <= i < |q|
        ensures Divide(q, Sum(q))[i] >= 0.0
      {
        QuotientNonNegative(q[i], Sum(q));
      }
    }
  }

  lemma {:induction false} ProductNonNegative(a: real, b: real)
    requires a >= 0.0 && b >= 0.0
    ensures a * b >= 0.0
  {
  }

  lemma {:induction false} QuotientNonNegative(a: real, t: real)
    requires a >= 0.0 && t > 0.0
    ensures a / t >= 0.0
  {
  }

  /** With both likelihoods positive, a non-negative prior with positive
      total has positive evidence, so `sense` never divides by zero. */
  lemma {:induction false} EvidencePositive(m: SensorModel, p: seq<real>, z: string)
    requires m.pHit > 0.0 && m.pMiss > 0.0
    requires NonNegative(p) && Sum(p) > 0.0 && |p| <= |m.world|
    ensures Sum(Unnormalised(m, p, z)) > 0.0
    ensures Posterior(m, p, z).Ok?
  {
    var lo := if m.pHit <= m.pMiss then m.pHit else m.pMiss;
    var q := Unnormalised(m, p, z);
    forall i | 0 <= i < |p|
      ensures Scale(lo, p)[i] <= q[i]
    {
      CellAbove(m, p, z, lo, i);
    }
    SumMonotone(Scale(lo, p), q);
    SumScale(lo, p);
    ProductPositive(lo, Sum(p));
  }

  /** A cell of the unnormalised list is at least its prior scaled by a
      lower bound of both likelihoods. */
  lemma {:induction false} CellAbove(m: SensorModel, p: seq<real>, z: string, lo: real, i: nat)
    requires lo <= m.pHit && lo <= m.pMiss
    requires NonNegative(p) && i < |p| <= |m.world|
    ensures Scale(lo, p)[i] <= Unnormalised(m, p, z)[i]
  {
    var f := Factor(z == m.world[i], m.pHit, m.pMiss);
    assert lo <= f;
    assert p[i] >= 0.0;
    ScaledBelow(p[i], lo, f);
    assert Unnormalised(m, p, z)[i] == p[i] * f;
  }

  /** `lo <= f` scales to `lo * x <= x * f` for `x >= 0`. */
  lemma {:induction false} ScaledBelow(x: real, lo: real, f: real)
    requires x >= 0.0 && lo <= f
    ensures lo * x <= x * f
  {
  }

  lemma {:induction false} ProductPositive(a: real, b: real)
    requires a > 0.0 && b > 0.0
    ensures a * b > 0.0
  {
  }

  /** With a non-negative prior, the evidence is zero exactly when every
      cell has zero prior or a zero likelihood for the reading. */
  lemma {:induction false} EvidenceZero(m: SensorModel, p: seq<real>, z: string)
    requires m.pHit >= 0.0 && m.pMiss >= 0.0
    requires NonNegative(p) && |p| <= |m.world|
    ensures Sum(Unnormalised(m, p, z)) == 0.0 <==>
      forall i :: 0 <= i < |p| ==> p[i] == 0.0 || Factor(z == m.world[i], m.pHit, m.pMiss) == 0.0
  {
    var q := Unnormalised(m, p, z);
    forall i | 0 <= i < |p|
      ensures q[i] >= 0.0
      ensures q[i] == 0.0 <==> p[i] == 0.0 || Factor(z == m.world[i], m.pHit, m.pMiss) == 0.0
    {
      ProductNonNegative(p[i], Factor(z == m.world[i], m.pHit, m.pMiss));
      ProductZero(p[i], Factor(z == m.world[i], m.pHit, m.pMiss));
    }
    SumZero(q);
  }

  lemma {:induction false} ProductZero(a: real, b: real)
    ensures a * b == 0.0 <==> a == 0.0 || b == 0.0
  {
  }

  /** Only the shape of the prior matters: scaling it by a positive constant
      leaves the result of `sense` unchanged. */
  lemma {:induction false} PosteriorScaleFree(m: SensorModel, p: seq<real>, z: string, c: real)
    requires c > 0.0
    ensures Posterior(m, Scale(c, p), z) == Posterior(m, p, z)
  {
    if |p| <= |m.world| {
      var q := Unnormalised(m, p, z);
      var cq := Unnormalised(m, Scale(c, p), z);
      assert cq == Scale(c, q) by {
        forall i | 0 <= i < |p|
          ensures cq[i] == Scale(c, q)[i]
        {
          ScaledCell(m, p, z, c, i);
        }
      }
      assert Sum(cq) == c * Sum(q) by {
        SumScale(c, q);
      }
      assert |Scale(c, p)| == |p| <= |m.world|;
      if q != [] && Sum(q) != 0.0 {
        var t := Sum(q);
        assert Sum(cq) != 0.0 by {
          ProductZero(c, t);
        }
        var ct := Sum(cq);
        assert ct == c * t;
        assert Divide(cq, ct) == Divide(Scale(c, q), c * t);
        ScaledQuotients(q, c, t);
        assert Posterior(m, Scale(c, p), z) == Ok(Divide(cq, Sum(cq)));
      }
    }
  }

  lemma {:induction false} ScaledCell(m: SensorModel, p: seq<real>, z: string, c: real, i: nat)
    requires |p| <= |m.world| && i < |p|
    ensures Unnormalised(m, Scale(c, p), z)[i] == c * Unnormalised(m, p, z)[i]
  {
    var f := Factor(z == m.world[i], m.pHit, m.pMiss);
    assert Unnormalised(m, Scale(c, p), z)[i] == (c * p[i]) * f;
    assert (c * p[i]) * f == c * (p[i] * f);
  }

  /** Scaling a list and its divisor alike leaves the quotients. */
  lemma {:induction false} ScaledQuotients(q: seq<real>, c: real, t: real)
    requires c != 0.0 && t != 0.0
    ensures c * t != 0.0
    ensures Divide(Scale(c, q), c * t) == Divide(q, t)
  {
    ProductZero(c, t);
    forall i | 0 <= i < |q|
      ensures Divide(Scale(c, q), c * t)[i] == Divide(q, t)[i]
    {
      CancelFactor(c, q[i], t);
    }
  }

  lemma {:induction false} CancelFactor(c: real, a: real, t: real)
    requires c != 0.0 && t != 0.0
    ensures (c * a) / (c * t) == a / t
  {
    assert (a / t) * t == a;
    assert (c * a) / (c * t) * (c * t) == c * a;
  }

  // ---------------------------------------------------------------------
  // move

  /** What `move(p, u)` returns: cell `i` collects the exact share from
      `i - u`, the overshoot share from `i - u - 1` and the undershoot share
      from `i - u + 1`, indices taken modulo the world size (Python's `%`
      agrees with Dafny's for a positive divisor). */
  function Convolve(mm: MotionModel, p: seq<real>, u: int): (q: seq<real>)
    ensures |q| == |p|
  {
    var n := |p|;
    seq(n, i requires 0 <= i < n =>
      mm.exact * p[(i - u) % n] + mm.overshoot * p[(i - u - 1) % n] + mm.undershoot * p[(i - u + 1) % n])
  }

  /** `move`: one running total `s` per cell, appended to `q`. */
  method Move(mm: MotionModel, p: seq<real>, u: int) returns (q: seq<real>)
    ensures q == Convolve(mm, p, u)
  {
    q := [];
    var i := 0;
    while i < |p|
      invariant 0 <= i <= |p|
      invariant q == Convolve(mm, p, u)[..i]
    {
      var s := mm.exact * p[(i - u) % |p|];
      s := s + mm.overshoot * p[(i - u - 1) % |p|];
      s := s + mm.undershoot * p[(i - u + 1) % |p|];
      assert s == Convolve(mm, p, u)[i];
      PrefixStep(Convolve(mm, p, u), i);
      q := q + [s];
      i := i + 1;
    }
  }

  lemma {:induction false} PrefixStep<T>(t: seq<T>, i: nat)
    requires i < |t|
    ensures t[..i + 1] == t[..i] + [t[i]]
  {
  }

  /** The blur as a mix of three cyclic shifts of the belief: by `u`, by
      `u + 1` (overshoot) and by `u - 1` (undershoot). */
  function Shifts(mm: MotionModel, p: seq<real>, u: int): (q: seq<real>)
    ensures |q| == |p|
  {
    Plus(Plus(Scale(mm.exact, Rotate(p, u)), Scale(mm.overshoot, Rotate(p, u + 1))),
         Scale(mm.undershoot, Rotate(p, u - 1)))
  }

  /** `move` computes exactly that mix. */
  lemma {:induction false} ConvolveAsShifts(mm: MotionModel, p: seq<real>, u: int)
    ensures Convolve(mm, p, u) == Shifts(mm, p, u)
  {
    forall i | 0 <= i < |p|
      ensures Convolve(mm, p, u)[i] == Shifts(mm, p, u)[i]
    {
      ShiftsAt(mm, p, u, i);
    }
  }

  lemma {:induction false} ShiftsAt(mm: MotionModel, p: seq<real>, u: int, i: nat)
    requires i < |p|
    ensures var n := |p|;
      Shifts(mm, p, u)[i] == mm.exact * p[(i - u) % n] + mm.overshoot * p[(i - u - 1) % n] + mm.undershoot * p[(i - u + 1) % n]
    ensures Convolve(mm, p, u)[i] == Shifts(mm, p, u)[i]
  {
    var n := |p|;
    var a := Scale(mm.exact, Rotate(p, u));
    var b := Scale(mm.overshoot, Rotate(p, u + 1));
    var c := Scale(mm.undershoot, Rotate(p, u - 1));
    assert a[i] == mm.exact * p[(i - u) % n];
    assert i - u - 1 == i - (u + 1) && b[i] == mm.overshoot * p[(i - u - 1) % n];
    assert i - u + 1 == i - (u - 1) && c[i] == mm.undershoot * p[(i - u + 1) % n];
    assert Shifts(mm, p, u)[i] == a[i] + b[i] + c[i];
  }

  /** Each shift keeps the mass, so the mix weighs it by the sum of the taps. */
  lemma {:induction false} ShiftsMass(mm: MotionModel, p: seq<real>, u: int)
    ensures Sum(Shifts(mm, p, u)) == (mm.exact + mm.overshoot + mm.undershoot) * Sum(p)
  {
    SumRotate(p, u);
    SumRotate(p, u + 1);
    SumRotate(p, u - 1);
    MixMass(mm, p, Shifts(mm, p, u), Rotate(p, u), Rotate(p, u + 1), Rotate(p, u - 1));
  }

  /** `move` weighs the total mass by the sum of the taps; with taps that
      sum to one it preserves the mass. */
  lemma {:induction false} ConvolveMass(mm: MotionModel, p: seq<real>, u: int)
    ensures Sum(Convolve(mm, p, u)) == (mm.exact + mm.overshoot + mm.undershoot) * Sum(p)
  {
    ConvolveAsShifts(mm, p, u);
    ShiftsMass(mm, p, u);
  }

  /** A mix, with the taps of `mm`, of three lists that each carry the mass of `p`. */
  lemma {:induction false} MixMass(mm: MotionModel, p: seq<real>, q: seq<real>, a: seq<real>, b: seq<real>, c: seq<real>)
    requires |a| == |b| == |c|
    requires q == Plus(Plus(Scale(mm.exact, a), Scale(mm.overshoot, b)), Scale(mm.undershoot, c))
    requires Sum(a) == Sum(p) && Sum(b) == Sum(p) && Sum(c) == Sum(p)
    ensures Sum(q) == (mm.exact + mm.overshoot + mm.undershoot) * Sum(p)
  {
    var sa, sb, sc := Scale(mm.exact, a), Scale(mm.overshoot, b), Scale(mm.undershoot, c);
    PlusMass(q, sa, sb, sc);
    ScaledMass(mm.exact, a, p);
    ScaledMass(mm.overshoot, b, p);
    ScaledMass(mm.undershoot, c, p);
    TapsMass(mm, p);
  }

  lemma {:induction false} PlusMass(q: seq<real>, a: seq<real>, b: seq<real>, c: seq<real>)
    requires |a| == |b| == |c|
    requires q == Plus(Plus(a, b), c)
    ensures Sum(q) == Sum(a) + Sum(b) + Sum(c)
  {
    SumPlus(Plus(a, b), c);
    SumPlus(a, b);
  }

  lemma {:induction false} ScaledMass(x: real, a: seq<real>, p: seq<real>)
    requires Sum(a) == Sum(p)
    ensures Sum(Scale(x, a)) == x * Sum(p)
  {
    SumScale(x, a);
  }

  /** `Distribute` with the total mass of `p` as the common factor. It takes
      `p` rather than `Sum(p)` so that callers do not pass that product term as
      an argument, which makes their proofs far costlier. */
  lemma {:induction false} TapsMass(mm: MotionModel, p: seq<real>)
    ensures mm.exact * Sum(p) + mm.overshoot * Sum(p) + mm.undershoot * Sum(p)
         == (mm.exact + mm.overshoot + mm.undershoot) * Sum(p)
  {
  }

  /** The taps distribute over a common factor. */
  lemma {:induction false} Distribute(a: real, b: real, c: real, s: real)
    ensures a * s + b * s + c * s == (a + b + c) * s
  {
  }

  /** Non-negative taps keep a non-negative belief non-negative. */
  lemma {:induction false} ConvolveNonNegative(mm: MotionModel, p: seq<real>, u: int)
    requires mm.exact >= 0.0 && mm.overshoot >= 0.0 && mm.undershoot >= 0.0
    requires NonNegative(p)
    ensures NonNegative(Convolve(mm, p, u))
  {
    var n := |p|;
    forall i | 0 <= i < n
      ensures Convolve(mm, p, u)[i] >= 0.0
    {
      ProductNonNegative(mm.exact, p[(i - u) % n]);
      ProductNonNegative(mm.overshoot, p[(i - u - 1) % n]);
      ProductNonNegative(mm.undershoot, p[(i - u + 1) % n]);
    }
  }

  /** Moving once around the world is no move: `move` is periodic in `u`
      with period `len(p)`. */
  lemma {:induction false} ConvolvePeriodic(mm: MotionModel, p: seq<real>, u: int)
    ensures Convolve(mm, p, u + |p|) == Convolve(mm, p, u)
  {
    var n := |p|;
    if n > 0 {
      forall i | 0 <= i < n
        ensures Convolve(mm, p, u + n)[i] == Convolve(mm, p, u)[i]
      {
        ModShift(i - u, n, -1);
        ModShift(i - u - 1, n, -1);
        ModShift(i - u + 1, n, -1);
      }
    }
  }

  /** A uniform belief stays uniform when the taps sum to one. */
  lemma {:induction false} ConvolveUniform(mm: MotionModel, p: seq<real>, u: int)
    requires mm.exact + mm.overshoot + mm.undershoot == 1.0
    requires forall i, j :: 0 <= i < |p| && 0 <= j < |p| ==> p[i] == p[j]
    ensures Convolve(mm, p, u) == p
  {
    forall i | 0 <= i < |p|
      ensures Convolve(mm, p, u)[i] == p[i]
    {
      UniformAt(mm, p, u, i);
    }
  }

  lemma {:induction false} UniformAt(mm: MotionModel, p: seq<real>, u: int, i: nat)
    requires mm.exact + mm.overshoot + mm.undershoot == 1.0
    requires forall k, l :: 0 <= k < |p| && 0 <= l < |p| ==> p[k] == p[l]
    requires i < |p|
    ensures Convolve(mm, p, u)[i] == p[i]
  {
    var n := |p|;
    assert p[(i - u) % n] == p[i] && p[(i - u - 1) % n] == p[i] && p[(i - u + 1) % n] == p[i];
    Distribute(mm.exact, mm.overshoot, mm.undershoot, p[i]);
  }

  /** A belief certain of cell `j`. */
  function PointMass(n: nat, j: nat): (p: seq<real>)
    requires j < n
    ensures |p| == n && p[j] == 1.0
    ensures forall k :: 0 <= k < n && k != j ==> p[k] == 0.0
  {
    seq(n, k requires 0 <= k < n => if k == j then 1.0 else 0.0)
  }

  /** Reading from `i - u` moves the belief forward by `u`: certainty about
      cell `j` becomes the exact share at `j + u`, the overshoot share one
      cell further and the undershoot share one cell short (in a world of at
      least three cells, where those are different cells). */
  lemma {:induction false} ConvolveCarries(mm: MotionModel, n: nat, j: nat, u: int)
    requires 3 <= n && j < n
    ensures Convolve(mm, PointMass(n, j), u)[(j + u) % n] == mm.exact
    ensures Convolve(mm, PointMass(n, j), u)[(j + u + 1) % n] == mm.overshoot
    ensures Convolve(mm, PointMass(n, j), u)[(j + u - 1) % n] == mm.undershoot
  {
    CarriesAt(mm, n, j, u, 0);
    CarriesAt(mm, n, j, u, 1);
    CarriesAt(mm, n, j, u, -1);
  }

  /** Cell `j + u + d` of the moved point mass. */
  lemma {:induction false} CarriesAt(mm: MotionModel, n: nat, j: nat, u: int, d: int)
    requires 3 <= n && j < n && -1 <= d <= 1
    ensures Convolve(mm, PointMass(n, j), u)[(j + u + d) % n]
         == if d == 0 then mm.exact else if d == 1 then mm.overshoot else mm.undershoot
  {
    var p := PointMass(n, j);
    var i := (j + u + d) % n;
    ModOffset(j + u + d, -u, n);
    ModOffset(j + u + d, -u - 1, n);
    ModOffset(j + u + d, -u + 1, n);
    ModNear(j, d, n);
    ModNear(j, d - 1, n);
    ModNear(j, d + 1, n);
    assert (i - u) % n == (j + d) % n;
    assert (i - u - 1) % n == (j + d - 1) % n;
    assert (i - u + 1) % n == (j + d + 1) % n;
  }

  /** Reducing before adding an offset does not change the remainder. */
  lemma {:induction false} ModOffset(a: int, b: int, n: int)
    requires n > 0
    ensures (a % n + b) % n == (a + b) % n
  {
    var r := (a % n + b) % n;
    var q := (a % n + b) / n;
    ModUnique(a + b, n, a / n + q, r);
  }

  /** Within two cells of `j`, only `j` itself has remainder `j`. */
  lemma {:induction false} ModNear(j: int, k: int, n: int)
    requires 3 <= n && 0 <= j < n && -2 <= k <= 2
    ensures (j + k) % n == j <==> k == 0
  {
    if k == 0 {
      ModUnique(j, n, 0, j);
    } else {
      var q, r := (j + k) / n, (j + k) % n;
      if r == j {
        assert k == n * q;
        if q >= 1 {
          MulAtLeast(n, q);
        } else if q <= -1 {
          MulAtLeast(n, -q);
        }
      }
    }
  }
}
