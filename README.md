# Particle filter and 1-D histogram localization, modelled in Dafny

This project models the probability bookkeeping of a small robot-localization
repository and proves properties of that model. It covers two filters:

- **The particle filter** (`particle_filter.py`).
  - Particles are mutable objects with a position, a heading and a weight.
  - Each turn of the main loop gives every particle the reciprocal of the gap
    between its sensor reading and the robot's, capped at 1e5. It then divides
    every weight by the total.
  - The particle list is then resampled by stochastic universal sampling
    (`sus`), which lays `n` equally spaced pointers over the cumulative
    weights and hands them to the roulette-wheel scan `rws`.
  - `compute_mean_point` computes a weighted mean of the particle positions
    as the filter's estimate. Nothing calls it; the commented-out line
    particle_filter.py:223 would display its results.
- **The 1-D histogram filter** (`1Dlocalization.py` and
  `1Dlocalization_schlotter.py`).
  - The belief is a list of probabilities over the cells of a cyclic world of
    coloured cells.
  - `sense` multiplies each cell by a hit or miss likelihood and normalises.
  - `move` shifts the belief with a three-tap blur: exact, overshoot and
    undershoot.
  - The two scripts differ only in their constants.

Arithmetic is exact (`real`). The maze is an oracle: a sensor function
`(x, y) -> distance`, and a movement checker passed in as an optional
function. The random start offset of `sus` is a parameter.

Python exceptions are modelled as a `Result` datatype (`Faults.Fault`):
- `IndexError` when the scan of `rws` or the colour lookup of `sense` runs
  past the end of a list;
- `ZeroDivisionError` when `sus` gets an empty list or `sense` a belief with
  zero evidence.

Files:

- `faults.dfy`: `Fault`, `Result`, `Option`.
- `real_seqs.dfy`: sums, element-wise arithmetic, cyclic rotation and
  weighted sums of real sequences, with their algebra.
- `resampling.dfy`: `rws` and `sus`, generic over the particle type, and
  their selection properties, including the low-variance copy-count bound.
- `particles.dfy`: the `Particle` class, `move_by` and the checked step of
  `advance_by`, the weighting pass, the weighted mean, and resampling of
  particle lists.
- `histogram.dfy`: `sense` and `move` with their constants as parameters
  (`SensorModel`, `MotionModel`), and their properties.
- `localization_1d.dfy`, `localization_1d_schlotter.dfy`: the two scripts'
  constants, and `sense`/`move` specialised to them.

Some of the source's behaviour differs from what a reader of it would
expect.
- `sus` returns the selected particle objects themselves, so after
  resampling the same object can appear several times in the list. The
  following weighting pass then divides that object's weight once per
  appearance, and the weights no longer sum to 1. The code behaves this way
  and is modelled as written. A version with fresh copies is modelled next to
  it (see "## Findings").
- `sense` in `1Dlocalization_schlotter.py` divides by zero when no cell
  matching the reading has positive belief. This is modelled as an error
  result and stated as an if-and-only-if for a non-negative belief. With
  negative cells, matching cells can cancel out, so the total can be zero
  even though some matching cell is positive.

## Model

| member | source | states |
|---|---|---|
| Resampling.CumSum | particle_filter.py:173 | `np.cumsum`: entry `i` is the total of the weights `0..i`, and the list is as long as the weights |
| Resampling.ScanFrom | particle_filter.py:175-177 | the scan from index `i` stops at the first index whose cumulative sum is at least the pointer |
| Resampling.Select | particle_filter.py:175-179 | the index `rws` keeps for a pointer is the least one whose cumulative sum reaches the pointer |
| Resampling.Selections | particle_filter.py:174-179 | one selected index per pointer, in pointer order; each is a valid particle index whose cumulative sum reaches its pointer |
| Resampling.Rws | particle_filter.py:170-181 | returns without error exactly when every pointer is reached by some cumulative sum, otherwise IndexError; the result has one entry per pointer, in pointer order, each the particle at the least index whose cumulative sum reaches that pointer |
| Resampling.Sus | particle_filter.py:184-190 | an empty list raises ZeroDivisionError; otherwise the result is `rws` of the `n` pointers `start + k * (weight_sum / n)`: `n` entries when every pointer is reached, IndexError otherwise |
| Resampling.Pointers | particle_filter.py:187-189 | the list of pointers `[start + i*p for i in range(n)]` has `n` entries; their order and range are stated by `Resampling.PointersInRange` |
| Resampling.CumStep | particle_filter.py:173 | each cumulative sum is the previous one plus the next weight |
| Resampling.CumMonotone | particle_filter.py:173 | with non-negative weights the cumulative sums never decrease |
| Resampling.ReachedIff | particle_filter.py:176-177 | with non-negative weights a pointer is reached exactly when the list is non-empty and the pointer is at most the total weight |
| Resampling.RwsInBoundsIff | particle_filter.py:174-179 | with non-negative weights `rws` stays in bounds exactly when there are no pointers, or the list is non-empty and every pointer is at most the total weight |
| Resampling.SelectMonotone | particle_filter.py:174-179 | a larger pointer never selects an earlier index |
| Resampling.SelectionsSorted | particle_filter.py:174-179 | non-decreasing pointers give non-decreasing selected indices |
| Resampling.SelectedWeightPositive | particle_filter.py:176-179 | a pointer above 0 never selects a particle of weight 0 or less |
| Resampling.SelectAtMostIff | particle_filter.py:176-177 | with non-negative weights a pointer selects an index at most `i` exactly when it is at most the cumulative sum at `i` |
| Resampling.SelectIs | particle_filter.py:175-177 | an index whose cumulative sum reaches the pointer, with all earlier sums below it, is the selected one |
| Resampling.PointersInRange | particle_filter.py:187-189 | for `0 <= start <= step` the pointers of `sus` are ascending and lie in `[0, n * step]` |
| Resampling.PointersAscending | particle_filter.py:189 | with a non-negative spacing the pointers ascend |
| Resampling.PointerGap | particle_filter.py:189 | with a non-negative spacing, the pointer at index `j` is at most the pointer at any later index `k` |
| Resampling.SusInBounds | particle_filter.py:184-190 | with non-negative weights and `0 <= start <= weight_sum / n`, every pointer of `sus` is reached, so `rws` never runs off the end |
| Resampling.CopiesAsCounts | particle_filter.py:174-179 | with non-negative weights, the copies of particle `i` are the pointers above the cumulative sum at `i - 1` and at most the one at `i` |
| Resampling.ProgressionCount | particle_filter.py:189 | the number of pointers at most `x`, for `x` in `[0, n * step]`, is `(x - start) / step` to within one |
| Resampling.CopiesWithinOneOfStep | particle_filter.py:184-190 | for any spacing whose `n` steps span the total: `copies * step` is within one step of the particle's weight |
| Resampling.CopiesWithinOne | particle_filter.py:184-190 | under `sus` with non-negative weights of positive total, `copies * (weight_sum / n)` is within one spacing of the particle's weight |
| Resampling.CopiesWithinOneOfShare | particle_filter.py:184-190 | under `sus`, each particle's number of copies differs from `w_i * n / weight_sum` by at most one |
| Particles.Particle.constructor | particle_filter.py:84-93 | the new particle holds the given position, heading and weight |
| Particles.Particle.MoveBy | particle_filter.py:129-131 | adds exactly `(dx, dy)` to the position and leaves heading and weight unchanged |
| Particles.Particle.AdvanceBy | particle_filter.py:124-127 | moves by `(dx, dy)` and answers true exactly when there is no checker or the checker accepts the step from the old position; otherwise nothing changes; heading and weight never change |
| Particles.Weights | particle_filter.py:172 | `[p.w for p in particles]`, in list order |
| Particles.Readings | particle_filter.py:207 | each particle's sensor reading at its position, in list order |
| Particles.Likelihood | particle_filter.py:209-210 | every weight is positive and at most `1e5` |
| Particles.Likelihoods | particle_filter.py:207-211 | one likelihood per reading, in list order |
| Particles.LikelihoodsBounded | particle_filter.py:209-211 | every likelihood in the list is positive and at most `1e5` |
| Particles.LikelihoodReciprocal | particle_filter.py:209-210 | beyond the minimum deviation the weight times the distance of the readings is 1; within it the weight is `1e5` |
| Particles.LikelihoodAntitone | particle_filter.py:209-210 | a reading closer to the robot's never gets a smaller weight |
| Particles.AssignLikelihoods | particle_filter.py:204-214 | each entry's weight becomes the likelihood of its reading, and the returned total is the sum of the likelihoods |
| Particles.SetLikelihood | particle_filter.py:207-211 | one step of the first loop: the particle's weight becomes the likelihood of the reading at its position, and that likelihood is returned for the total |
| Particles.DivideWeights | particle_filter.py:216-218 | each entry's weight ends divided by the total once per appearance of that object in the list |
| Particles.DividedByPower | particle_filter.py:216-218 | dividing `n` times by a positive `t` divides by `t^n` |
| Particles.Weigh | particle_filter.py:204-218 | for a non-empty list the total is positive; each weight is its likelihood over `total^occurrences`; without shared entries the weights are the normalised likelihoods, positive and summing to exactly 1 |
| Particles.NormalisedWhenDistinct | particle_filter.py:216-218 | when no object is listed twice, each weight was divided exactly once: weights are the likelihoods over their total, positive, summing to 1 |
| Particles.ComputeMeanPoint | particle_filter.py:60-70 | the one-pass accumulation returns the weighted mean of the positions, or no estimate when the total weight is 0 |
| Particles.WeightedMean | particle_filter.py:60-70 | no estimate exactly when the total weight is 0; otherwise each coordinate of the mean times the total weight is the weighted sum of that coordinate |
| Particles.NoEstimateIff | particle_filter.py:66-67 | with non-negative weights there is no estimate exactly when every weight is 0 |
| Particles.MeanInBox | particle_filter.py:60-70 | with non-negative weights of non-zero total the mean lies in every axis-parallel box that holds all particle positions |
| Particles.MeanBetween | particle_filter.py:69-70 | one coordinate of the mean lies between the least and the greatest coordinate |
| Particles.ZeroWeightIgnored | particle_filter.py:61-64 | removing a particle of weight 0 changes neither the verdict nor the mean |
| Particles.SusShared | particle_filter.py:184-190 | `sus` on particle objects: with the particle list's weights the same outcome as `Resampling.Sus`, and each entry is one of the input objects |
| Particles.ResampleSharedThenWeigh | particle_filter.py:204-227 | as written: after `sus` and the next weighting pass, each entry's weight is its likelihood over `total^k`, `k` the number of entries sharing its object |
| Particles.SharedCopiesBreakNormalisation | particle_filter.py:216-218 | a two-particle list whose first particle `sus` picks twice ends, after the weighting pass, with weights summing to 0.5, not 1 |
| Particles.SusPicksFirstTwice | particle_filter.py:184-190 | with weights `[0.9, 0.1]` and start 0.25, `sus` returns the first object (the particle at (0, 0)) twice |
| Particles.PicksFirstTwice | particle_filter.py:184-189 | the pointers of that call are both reached and both select index 0 |
| Particles.ResampleCopies | particle_filter.py:184-190 | the corrected resampling: the same selection as `sus`, each entry a fresh object with the selected particle's state, no two entries the same object |
| Particles.CopyAll | particle_filter.py:179 | one fresh particle per entry, with that entry's state, all distinct |
| Particles.ResampleThenWeigh | particle_filter.py:204-218 | with fresh copies, the weighting pass after resampling leaves positive weights that sum to exactly 1 |
| Histogram.Factor | 1Dlocalization.py:15-16 | `hit * pHit + (1 - hit) * pMiss` is `pHit` on a colour match and `pMiss` otherwise |
| Histogram.Unnormalised | 1Dlocalization.py:13-16 | the unnormalised list has one entry per cell of the belief |
| Histogram.Sense | 1Dlocalization.py:12-20 | the append loop and the in-place normalisation loop compute `Posterior`: IndexError when the belief is longer than the world, `[]` for an empty belief, ZeroDivisionError for zero evidence, else the products over their total |
| Histogram.Posterior | 1Dlocalization.py:12-20 | the outcome of `sense`: IndexError exactly when the belief is longer than the world; a successful result has one cell per cell of the belief; a successful non-empty result has non-zero evidence |
| Histogram.PosteriorFaults | 1Dlocalization.py:14-19 | IndexError exactly when `len(p) > len(world)`; ZeroDivisionError exactly when the belief fits, is non-empty and has zero evidence |
| Histogram.PosteriorEntries | 1Dlocalization.py:15-19 | a successful result has the length of `p`, and each cell is `p[i]*pHit/s` on a colour match and `p[i]*pMiss/s` otherwise, with `s != 0` the total |
| Histogram.PosteriorNormalised | 1Dlocalization.py:17-20 | a successful non-empty result sums to 1, and is non-negative when the prior and the likelihoods are |
| Histogram.EvidencePositive | 1Dlocalization.py:15-19 | with both likelihoods positive, a non-negative belief of positive total has positive evidence, so `sense` succeeds |
| Histogram.EvidenceZero | 1Dlocalization.py:16-17 | for a non-negative belief the evidence is 0 exactly when each cell has zero belief or zero likelihood |
| Histogram.PosteriorScaleFree | 1Dlocalization.py:12-20 | scaling the belief by a positive constant does not change the result of `sense` |
| Histogram.Convolve | 1Dlocalization.py:23-30 | `move` returns one cell per cell of the belief |
| Histogram.Move | 1Dlocalization.py:23-30 | the append loop computes `Convolve`: cell `i` is `exact*p[(i-u)%n] + overshoot*p[(i-u-1)%n] + undershoot*p[(i-u+1)%n]` |
| Histogram.Shifts | 1Dlocalization.py:26-28 | the mix of three cyclic shifts has the length of the belief |
| Histogram.ConvolveAsShifts | 1Dlocalization.py:26-28 | `move` equals the tap-weighted mix of the belief shifted by `u`, `u+1` and `u-1` |
| Histogram.ShiftsAt | 1Dlocalization.py:26-28 | cell `i` of that mix is the cell formula of `move` |
| Histogram.ShiftsMass | 1Dlocalization.py:26-28 | the mix weighs the total mass by the sum of the taps |
| Histogram.ConvolveMass | 1Dlocalization.py:26-28 | `move` multiplies the total mass by `exact + overshoot + undershoot` |
| Histogram.MixMass | 1Dlocalization.py:26-28 | mixing three lists of the same mass with the taps weighs that mass by their sum |
| Histogram.ConvolveNonNegative | 1Dlocalization.py:26-28 | with non-negative taps a non-negative belief stays non-negative |
| Histogram.ConvolvePeriodic | 1Dlocalization.py:26-28 | `move(p, u + len(p)) == move(p, u)` |
| Histogram.ConvolveUniform | 1Dlocalization.py:26-28 | with taps summing to 1, a uniform belief is mapped to itself |
| Histogram.UniformAt | 1Dlocalization.py:26-28 | one cell of that fixed point |
| Histogram.PointMass | 1Dlocalization_schlotter.py:24-33 | a belief certain of one cell: 1 there, 0 everywhere else |
| Histogram.ConvolveCarries | 1Dlocalization_schlotter.py:29-31 | reading from `i - u` moves the belief forward: with at least three cells, certainty about cell `j` becomes the exact share at `j+u`, the overshoot share at `j+u+1` and the undershoot share at `j+u-1` |
| Histogram.CarriesAt | 1Dlocalization_schlotter.py:29-31 | one of those three target cells |
| Localization1D.Sense | 1Dlocalization.py:12-20 | with the script's world and `pHit = 0.6`, `pMiss = 0.2`: IndexError exactly when `len(p) > 5`; a non-negative belief of positive total that fits gives a non-negative result summing to 1; the cell formula `p[i]*pHit/s` or `p[i]*pMiss/s` |
| Localization1D.Move | 1Dlocalization.py:23-30 | with taps 0.8/0.1/0.1: same length, the cell formula, total mass preserved, non-negativity preserved, periodic in `u` with period `len(p)`, a uniform belief unchanged |
| Localization1D.MoveAt | 1Dlocalization.py:26-28 | one cell of `move` with the taps 0.8/0.1/0.1 |
| Localization1DSchlotter.Sense | 1Dlocalization_schlotter.py:13-21 | with the script's world and `pHit = 1`, `pMiss = 0`: IndexError exactly when `len(p) > 5`; mismatching cells become 0; matching cells are `p[i]/s` and a successful non-empty result sums to 1; for a non-negative non-empty belief that fits, ZeroDivisionError exactly when every matching cell has zero belief; non-negativity is preserved |
| Localization1DSchlotter.MismatchesVanish | 1Dlocalization_schlotter.py:16-17 | since `pMiss == 0`, every cell whose colour differs from the reading ends at 0 |
| Localization1DSchlotter.MatchesOnly | 1Dlocalization_schlotter.py:16-17 | with likelihoods 1 and 0 the evidence condition "zero belief or zero likelihood" is "every matching cell has zero belief" |
| Localization1DSchlotter.Move | 1Dlocalization_schlotter.py:24-33 | with taps 0.8/0.05/0.15: same length, the cell formula reading the overshoot from `i-u-1`, total mass preserved, non-negativity preserved, and a point mass at `j` sends 0.8 to `j+u`, 0.05 to `j+u+1` and 0.15 to `j+u-1` |
| Localization1DSchlotter.MoveAt | 1Dlocalization_schlotter.py:29-31 | one cell of `move` with the taps 0.8/0.05/0.15 |

## Left out

- Constructor defaults: `Particles.Particle.constructor` takes the weight explicitly, so the default `w=1` (particle_filter.py:84) is not modelled; the first weighting pass overwrites every weight before `sus` reads one.
- Randomness: the `sus` start offset, the noise helpers, random headings and `create_random` (particle_filter.py:30-39, 86-88, 107-108, 119-120, 144, 188, 231). The start offset is a parameter, and the noise and random placement are not modelled.
- The trigonometry of `advance_by` (particle_filter.py:117-123) is left out, because `sin`, `cos` and `radians` have no exact model. `Particles.Particle.AdvanceBy` takes the computed step `(dx, dy)` as input and models only the checker branch.
- `Particles.Particle.AdvanceBy`: the checker receives the particle's position `(x, y)` and the step, not the particle itself as at particle_filter.py:124. The only checker in the source (particle_filter.py:161) reads just the position, so nothing else of the particle is visible to it.
- The maze and drawing code (`Maze`, `distance_to_nearest_beacon`, `is_free`, `random_free_place`, `world.distance`, `show_*`) is foreign code. The sensor and the checker are function parameters.
- The confidence half of `compute_mean_point` (particle_filter.py:72-79) is left out, because it needs `world.distance` and compares against the global `PARTICLE_COUNT`. The model returns the estimate without the confidence flag.
- `Robot` and its `move` method (particle_filter.py:135-165) are left out. `move` is an unbounded retry loop driven by randomness and the maze.
- `w_gauss` (particle_filter.py:43-49) is left out, because it uses real exponentiation and the code that calls it is commented out.
- The endless main loop, the `__main__` blocks and all `print` calls are left out. This includes the two prints inside `move` in `1Dlocalization_schlotter.py`. They are drivers and output only.
- `numpy.cumsum` is replaced by the recursive `Resampling.CumSum`.
- Floating-point rounding is not modelled. All arithmetic is exact `real`, so "sums to 1" and "mass preserved" are exact-real statements, not IEEE ones.
- Python's dynamic typing is not modelled: Python 2 integer division on integer weights, and the integer `pHit = 1` of the second script. The weights reaching `sus` and `sense` are floats in the scripts, so the model uses reals throughout.

## Findings

| source | as written | input that shows it | evidently intended | confidence | as-written member | corrected member |
|---|---|---|---|---|---|---|
| particle_filter.py:216-218 | `sus` returns the selected objects themselves (line 179 appends `particles[i]`). After resampling, an object picked twice appears twice, and the normalisation loop divides its weight once per appearance. The weights then no longer sum to 1: less than 1 whenever the likelihood total exceeds 1, as it always does with the script's 2000 particles. | Two particles at rest with weights `[0.9, 0.1]`, as a weighting pass leaves them when the likelihoods are in the ratio 9 to 1, and start offset 0.25: the pointers 0.25 and 0.75 both fall within the first cumulative sum 0.9, so `sus` picks the first particle twice. If the next readings give likelihood 1 to both entries, the total is 2, the shared weight ends at `1/4`, and the list sums to 0.5. | Each resampled entry is an independent particle, so after the weighting pass the weights sum to 1. | not executed | Particles.SharedCopiesBreakNormalisation | Particles.ResampleThenWeigh |
