/** The second 1-D localization script: a five-cell world with a single red
    cell, a perfect sensor (a matching colour has likelihood 1, any other
    colour 0) and an asymmetric motion (exact 0.8, one cell too far 0.05,
    one cell short 0.15). With a zero miss likelihood a reading can rule out
    every cell the belief allows, so here `sense` can divide by zero. */
module Localization1DSchlotter {
  import opened Faults
  import opened RealSeqs
  import opened Histogram

  const World: seq<string> := ["green", "red", "green", "green", "green"]
  const PHit: real := 1.0
  const PMiss: real := 0.0
  const PExact: real := 0.8
  const POvershoot: real := 0.05
  const PUndershoot: real := 0.15

  const Sensor: SensorModel := SensorModel(World, PHit, PMiss)
  const Motion: MotionModel := MotionModel(PExact, POvershoot, PUndershoot)

  /** `sense(p, z)`. Cells whose colour is not `z` drop to zero; the others
      keep their prior over the total prior of the matching cells. For a
      non-negative belief that fits the world, the division by zero happens
      exactly when no matching cell has positive prior. */
  method Sense(p: seq<real>, z: string) returns (r: Result<seq<real>>)
    ensures r == Err(IndexError) <==> |p| > 5
    ensures r.Ok? ==> |r.value| == |p|
    ensures r.Ok? ==> forall i :: 0 <= i < |p| && z != World[i] ==> r.value[i] == 0.0
    ensures r.Ok? && p != [] ==>
      var s := Sum(Unnormalised(Sensor, p, z));
      s != 0.0 && Sum(r.value) == 1.0 &&
      forall i :: 0 <= i < |p| && z == World[i] ==> r.value[i] == p[i] / s
    ensures NonNegative(p) && p != [] && |p| <= 5 ==>
      (r == Err(ZeroDivisionError) <==> forall i :: 0 <= i < |p| && z == World[i] ==> p[i] == 0.0)
    ensures NonNegative(p) && r.Ok? ==> NonNegative(r.value)
  {
    r := Histogram.Sense(Sensor, p, z);
    PosteriorFaults(Sensor, p, z);
    if r.Ok? {
      MismatchesVanish(p, z);
      PosteriorEntries(Sensor, p, z);
      if p != [] {
        PosteriorNormalised(Sensor, p, z);
      }
    }
    if NonNegative(p) && |p| <= 5 {
      EvidenceZero(Sensor, p, z);
      MatchesOnly(p, z);
    }
  }

  /** A cell whose colour differs from the reading ends at zero. */
  lemma {:induction false} MismatchesVanish(p: seq<real>, z: string)
    requires Posterior(Sensor, p, z).Ok?
    ensures forall i :: 0 <= i < |p| && z != World[i] ==> Posterior(Sensor, p, z).value[i] == 0.0
  {
    if p != [] {
      var q := Unnormalised(Sensor, p, z);
      var s := Sum(q);
      assert Posterior(Sensor, p, z).value == Divide(q, s);
      forall i | 0 <= i < |p| && z != World[i]
        ensures Divide(q, s)[i] == 0.0
      {
        assert q[i] == p[i] * 0.0;
      }
    }
  }

  /** With likelihoods 1 and 0, a cell's factor vanishes exactly on a colour
      mismatch. */
  lemma {:induction false} MatchesOnly(p: seq<real>, z: string)
    requires |p| <= 5
    ensures (forall i :: 0 <= i < |p| ==> p[i] == 0.0 || Factor(z == World[i], PHit, PMiss) == 0.0)
        <==> (forall i :: 0 <= i < |p| && z == World[i] ==> p[i] == 0.0)
  {
    forall i | 0 <= i < |p|
      ensures Factor(z == World[i], PHit, PMiss) == 0.0 <==> z != World[i]
    {
    }
  }

  /** `move(p, u)` without its diagnostic output. The taps sum to one, so the
      move keeps the total mass and a non-negative belief non-negative; the
      overshoot share is read from `i - u - 1`, so certainty about cell `j`
      sends 0.8 to `j + u`, 0.05 one cell further and 0.15 one cell short. */
  method Move(p: seq<real>, u: int) returns (q: seq<real>)
    ensures |q| == |p|
    ensures forall i :: 0 <= i < |p| ==>
      q[i] == 0.8 * p[(i - u) % |p|] + 0.05 * p[(i - u - 1) % |p|] + 0.15 * p[(i - u + 1) % |p|]
    ensures Sum(q) == Sum(p)
    ensures NonNegative(p) ==> NonNegative(q)
    ensures forall j :: 3 <= |p| && 0 <= j < |p| && p == PointMass(|p|, j) ==>
      q[(j + u) % |p|] == 0.8 && q[(j + u + 1) % |p|] == 0.05 && q[(j + u - 1) % |p|] == 0.15
  {
    q := Histogram.Move(Motion, p, u);
    forall i | 0 <= i < |p|
      ensures q[i] == 0.8 * p[(i - u) % |p|] + 0.05 * p[(i - u - 1) % |p|] + 0.15 * p[(i - u + 1) % |p|]
    {
      MoveAt(p, u, i);
    }
    ConvolveMass(Motion, p, u);
    if NonNegative(p) {
      ConvolveNonNegative(Motion, p, u);
    }
    forall j | 3 <= |p| && 0 <= j < |p| && p == PointMass(|p|, j)
      ensures q[(j + u) % |p|] == 0.8 && q[(j + u + 1) % |p|] == 0.05 && q[(j + u - 1) % |p|] == 0.15
    {
      ConvolveCarries(Motion, |p|, j, u);
    }
  }

  /** One cell of `move` with the script's taps written out. */
  lemma {:induction false} MoveAt(p: seq<real>, u: int, i: nat)
    requires i < |p|
    ensures Convolve(Motion, p, u)[i]
         == 0.8 * p[(i - u) % |p|] + 0.05 * p[(i - u - 1) % |p|] + 0.15 * p[(i - u + 1) % |p|]
  {
  }
}
