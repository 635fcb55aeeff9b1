/** The first 1-D localization script: a five-cell cyclic world of green and
    red cells, a sensor that is three times as likely to report the colour
    it stands on (0.6) as any other (0.2), and a motion that lands exactly
    with probability 0.8 and one cell off either way with 0.1 each. */
module Localization1D {
  import opened Faults
  import opened RealSeqs
  import opened Histogram

  const World: seq<string> := ["green", "red", "red", "green", "green"]
  const PHit: real := 0.6
  const PMiss: real := 0.2
  const PExact: real := 0.8
  const POvershoot: real := 0.1
  const PUndershoot: real := 0.1

  const Sensor: SensorModel := SensorModel(World, PHit, PMiss)
  const Motion: MotionModel := MotionModel(PExact, POvershoot, PUndershoot)

  /** `sense(p, z)`. The world has five cells, so a longer belief raises
      `IndexError`; as both likelihoods are positive, a proper belief (non-
      negative, positive total) never divides by zero and comes back as a
      distribution. */
  method Sense(p: seq<real>, z: string) returns (r: Result<seq<real>>)
    ensures r == Err(IndexError) <==> |p| > 5
    ensures NonNegative(p) && Sum(p) > 0.0 && |p| <= 5 ==>
      r.Ok? && |r.value| == |p| && NonNegative(r.value) && Sum(r.value) == 1.0
    ensures r.Ok? ==> |r.value| == |p|
    ensures r.Ok? && p != [] ==>
      var s := Sum(Unnormalised(Sensor, p, z));
      s != 0.0 &&
      forall i :: 0 <= i < |p| ==>
        r.value[i] == (if z == World[i] then p[i] * PHit else p[i] * PMiss) / s
  {
    r := Histogram.Sense(Sensor, p, z);
    PosteriorFaults(Sensor, p, z);
    if r.Ok? {
      PosteriorEntries(Sensor, p, z);
    }
    if NonNegative(p) && Sum(p) > 0.0 && |p| <= 5 {
      EvidencePositive(Sensor, p, z);
      PosteriorNormalised(Sensor, p, z);
    }
  }

  /** `move(p, u)`. The taps sum to one, so the move keeps the total mass;
      it keeps a belief non-negative, is periodic in `u` with the world
      size, and leaves a uniform belief alone. */
  method Move(p: seq<real>, u: int) returns (q: seq<real>)
    ensures |q| == |p|
    ensures forall i :: 0 <= i < |p| ==>
      q[i] == 0.8 * p[(i - u) % |p|] + 0.1 * p[(i - u - 1) % |p|] + 0.1 * p[(i - u + 1) % |p|]
    ensures Sum(q) == Sum(p)
    ensures NonNegative(p) ==> NonNegative(q)
    ensures q == Convolve(Motion, p, u + |p|)
    ensures (forall i, j :: 0 <= i < |p| && 0 <= j < |p| ==> p[i] == p[j]) ==> q == p
  {
    q := Histogram.Move(Motion, p, u);
    forall i | 0 <= i < |p|
      ensures q[i] == 0.8 * p[(i - u) % |p|] + 0.1 * p[(i - u - 1) % |p|] + 0.1 * p[(i - u + 1) % |p|]
    {
      MoveAt(p, u, i);
    }
    ConvolveMass(Motion, p, u);
    if NonNegative(p) {
      ConvolveNonNegative(Motion, p, u);
    }
    ConvolvePeriodic(Motion, p, u);
    if forall i, j :: 0 <= i < |p| && 0 <= j < |p| ==> p[i] == p[j] {
      ConvolveUniform(Motion, p, u);
    }
  }

  /** One cell of `move` with the script's taps written out. */
  lemma {:induction false} MoveAt(p: seq<real>, u: int, i: nat)
    requires i < |p|
    ensures Convolve(Motion, p, u)[i]
         == 0.8 * p[(i - u) % |p|] + 0.1 * p[(i - u - 1) % |p|] + 0.1 * p[(i - u + 1) % |p|]
  {
  }
}
