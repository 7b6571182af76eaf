# Vertical-array angle scan, modelled in Dafny

This project models the numerical core of a vertical DAS (fibre-optic sensing) processing
pipeline. The pipeline estimates, at every time sample, the incidence angle of a wavefront
arriving at a vertical array of channels. It has four operations:

- `pred_vertical_tt` (TT_prediction.py) predicts a travel-time table: for every candidate
  incidence angle at the bottom of the array, the delay of every channel. The velocity profile
  is layered. The angle is carried upward by Snell's law. The delay is a running sum of slowness
  times the channel spacing `dz`, and each row is then reversed so that it reads top-down.
  Module `TravelTimePredictor` (travel_time.dfy).
- `apply_moveout` (angle_scan.py) shifts each channel of a `[channels, samples]` block back in
  time. The shift is the channel's moveout relative to the smallest one. Fractional shifts are
  linearly interpolated. Module `MoveoutShifter` (moveout.dfy).
- `calc_coherence` (angle_scan.py) scores a block sample by sample, as one of:
  - the windowed semblance `Σ S² / Σ Q / nchan` (S is the stack, Q the energy);
  - the channel mean;
  - their product with `|S|`.

  Module `CoherenceScorer` (coherence.dfy).
- `scan_angles` (angle_scan.py) shifts and scores the block once per row of the delay table.
  It then reduces every time sample to the first angle index that attains the largest
  coherence. Module `AngleScanner` (scan.dfy).

Shared modules:

- `Outcomes` (outcomes.dfy) holds the error values and the `Outcome`/`Option` wrappers.
- `Sums` (sums.dfy) holds finite sums and the Cauchy–Schwarz facts the semblance bound needs.
- `Grids` (grids.dfy) holds sequence views of two-dimensional arrays.

Each source routine becomes a Dafny method with the same loops. It fills `array`/`array2`
buffers, and its loop invariants connect it to a specification function over sequences:
`TravelTimes`, `Moved`, `CoherenceTrace` and `ScanSurface`. The properties are proved as lemmas
about those functions. Every raised exception becomes a `Fail(...)` outcome; the methods fail
exactly when their specification function does, and with the same error. Arithmetic is exact
(`real`). The trigonometric functions are supplied by the caller as a `Trig` value, and each
lemma states the few facts about them that it needs.

Where the code and the intended behaviour differ, the model follows the code, with one exception (the last item):

- Equal moveouts do not give the identity. The slice `0:nt-1` at angle_scan.py:81 never writes
  the last sample, so it stays 0 (`EqualShiftsKeepInput`).
- Under a uniform velocity `u`, every row whose angle is 0 has delay `dz·(nz-1-c)/u` at channel
  `c`, whatever the other angles of the grid are. It is counted from the deepest channel,
  because of the reversal at TT_prediction.py:43, not from the top (`UniformProfileDelays`).
- A one-sample velocity profile is not rejected. It gives a single zero column
  (`LastColumnZero`). An empty profile fails at TT_prediction.py:24. There
  `np.zeros(shape=(nz-1,))` is asked for a buffer of length -1, a negative dimension
  (`NegativeDimension`).
- A degree grid and its radian image give the same table only while the degree magnitudes
  stay within 180. Above that the radian image itself exceeds π and is converted again
  (`DegreeGridMatchesRadians`).
- Identical channels give semblance exactly 1 at every interior sample whose centre energy is
  non-zero, and 0 where it is zero (`IdenticalChannelsFullSemblance`).
- The undefined `n_live_ch` test at angle_scan.py:29 is dropped. The semblance of a window is
  0 exactly when the energy at its centre sample is 0.
- At angle_scan.py:79-80 a fractional part of 0 is replaced by 1. The model uses the
  documented convention instead, where a fractional part of 0 is a plain copy (see Findings).

## Model

| member | source | states |
|---|---|---|
| MoveoutShifter.MinOf | angle_scan.py:70 | the minimum is an entry of the vector and bounds every entry from below |
| MoveoutShifter.NormalisedShifts | angle_scan.py:70-71 | relative shifts in samples are all non-negative, one per channel |
| MoveoutShifter.SliceMismatch | angle_scan.py:81 | for a non-negative whole offset off, the two sides of the slice assignment differ in length exactly when nt ≤ off ≤ 2nt-2 |
| MoveoutShifter.Interpolate | angle_scan.py:77-81 | output sample t of a channel shifted by s; for a whole-sample shift k with t+k+1 < nt it is input sample t+k itself |
| MoveoutShifter.ShiftedRow | angle_scan.py:76-81 | the shifted channel keeps its nt samples, and every sample whose source t+off+1 runs past the end is 0 |
| MoveoutShifter.MoveoutError | angle_scan.py:64-81 | no error exactly when the moveout vector has one entry per channel, is non-empty, has no negative entry, and no channel's whole offset lies in [nt, 2nt-2] |
| MoveoutShifter.Moved | angle_scan.py:72-83 | the shifted block keeps the nch×nt shape |
| MoveoutShifter.ApplyMoveout | angle_scan.py:48-83 | fails exactly when `MoveoutError` names an error, and with that error: length mismatch, negative shift, empty vector, slice shape mismatch, checked in that order; otherwise returns a fresh nch×nt buffer equal to `Moved` |
| MoveoutShifter.ShiftChannel | angle_scan.py:76-81 | the row of channel ch becomes the interpolated shifted row, zero past `nt-off-1`; every other row is unchanged |
| MoveoutShifter.InterpolateInside | angle_scan.py:81 | inside the trace, output sample t is (1-f)·in[t+off] + f·in[t+off+1] |
| MoveoutShifter.InterpolatePastEnd | angle_scan.py:81 | output samples whose source runs past the end are 0 |
| MoveoutShifter.MinOfOffset | angle_scan.py:70 | raising every moveout by c raises the minimum by c |
| MoveoutShifter.OffsetShifts | angle_scan.py:70-71 | raising every moveout by c leaves the normalised shifts unchanged |
| MoveoutShifter.OffsetShift | angle_scan.py:70-71 | raising every moveout by c leaves channel ch's normalised shift unchanged |
| MoveoutShifter.ShiftInvariance | angle_scan.py:53-54 | raising every moveout by one constant leaves the normalised shifts and the output unchanged; while the entries stay non-negative, the error checks are unchanged too |
| MoveoutShifter.LeastShiftedChannelCopied | angle_scan.py:54 | the channel with the least moveout is copied on samples 0..nt-2, and its last sample is 0 |
| MoveoutShifter.EqualShiftsKeepInput | angle_scan.py:54 | with all moveouts equal, every channel equals its input except that the last sample is 0 |
| MoveoutShifter.WholeSampleShiftIsSlice | angle_scan.py:77-81 | a whole-sample shift k is slicing: out[t] = in[t+k] while t+k+1 < nt, else 0 |
| MoveoutShifter.WholeSampleShiftsAreSlices | angle_scan.py:77-81 | a block whose normalised shifts are whole numbers k[ch] is shifted by slicing: channel ch reads in[t+k[ch]] while t+k[ch]+1 < nt, and is 0 after |
| MoveoutShifter.InterpolateBetween | angle_scan.py:78-81 | each interpolated sample lies between the two input samples it is drawn from |
| MoveoutShifter.InterpolateAsWritten | angle_scan.py:77-81 | the code as written agrees with `Interpolate` at every sample whenever the shift has a non-zero fractional part |
| MoveoutShifter.AsWrittenWholeShiftReadsOneLate | angle_scan.py:79-81 | as written, a whole-sample shift k reads in[t+k+1], one sample late |
| MoveoutShifter.AsWrittenMovesLeastShiftedChannel | angle_scan.py:79-81 | on input [0, 1] with shift 0, the code as written gives 1 at t = 0, where the copy convention gives 0 |
| CoherenceScorer.Stacks | angle_scan.py:25 | one stack value per sample; a single channel is its own stack |
| CoherenceScorer.Energies | angle_scan.py:26 | one energy value Q[t] per sample, each ≥ 0; a single channel's energy is its own square |
| CoherenceScorer.WindowSemblance | angle_scan.py:28-33 | the semblance of one window is ≥ 0, and is non-zero only for a window that fits inside the trace and has non-zero centre energy |
| CoherenceScorer.Windows | angle_scan.py:28-33 | one value per sample, all ≥ 0, and 0 at every sample within h of either end |
| CoherenceScorer.EdgesReplicated | angle_scan.py:35-36 | samples [h, nt-h) are unchanged; when 2h < nt, the first h samples equal sample h and the last h equal sample nt-h-1 |
| CoherenceScorer.EdgesKeepValues | angle_scan.py:35-36 | edge replication invents no value: every sample afterwards is one of the samples from h on |
| CoherenceScorer.StackSquareBound | angle_scan.py:25-26 | Cauchy–Schwarz: S[t]² ≤ nchan·Q[t] at every sample |
| CoherenceScorer.SemblanceTrace | angle_scan.py:28-36 | the semblance trace has nt samples: every window's semblance, with both edges replicated |
| CoherenceScorer.SelectedTrace | angle_scan.py:37-44 | the dispatch fails, with UnknownMode, exactly when the mode is none of 'semb', 'stack' and 'sembstack'; otherwise the trace keeps nt samples |
| CoherenceScorer.CoherenceTrace | angle_scan.py:37-44 | every mode's trace has nt samples |
| CoherenceScorer.CalcCoherence | angle_scan.py:6-44 | fails exactly when `CoherenceTrace` fails (unknown mode, or a half window reaching past the trace), with the same error; otherwise returns a fresh array equal to the trace of the requested mode |
| CoherenceScorer.SelectMode | angle_scan.py:37-44 | agrees with `SelectedTrace` in outcome, error and values; 'semb' hands back the semblance buffer itself, the other modes a fresh buffer |
| CoherenceScorer.FillInterior | angle_scan.py:28-33 | after the loop over w, every entry holds that window's semblance: 0 where Q[w] = 0 or the window does not fit, else ΣS²/ΣQ/nchan over w-h..w+h |
| CoherenceScorer.ReplicateEdges | angle_scan.py:35-36 | after both edge assignments, samples [0,h) hold the old sample h and samples [nt-h,nt) hold sample nt-h-1 as it stands after the first assignment; the rest is unchanged |
| CoherenceScorer.WindowSemblanceInUnitInterval | angle_scan.py:28-33 | a window whose stack obeys S² ≤ nchan·Q has semblance in [0, 1] |
| CoherenceScorer.DominatedRatio | angle_scan.py:32-33 | when S_k² ≤ n·Q_k term by term and ΣQ > 0, the ratio ΣS²/ΣQ/n lies in [0, 1] |
| CoherenceScorer.SemblanceTraceInUnitInterval | angle_scan.py:28-36 | every sample of a semblance trace built from a stack with S² ≤ nchan·Q lies in [0, 1], the replicated edges included |
| CoherenceScorer.WeightedMagnitudesNonNegative | angle_scan.py:41-42 | w·\|S\|/n is ≥ 0 at every sample when the weights w are ≥ 0 and n > 0 |
| CoherenceScorer.SemblanceInUnitInterval | angle_scan.py:12 | whenever h < nt, the 'semb' trace exists and every value is in [0, 1] |
| CoherenceScorer.SembStackNonNegative | angle_scan.py:14 | whenever h < nt, the 'sembstack' trace exists and every value is ≥ 0 |
| CoherenceScorer.CoherenceFailures | angle_scan.py:37-44 | the trace fails exactly when nt ≤ h (WindowBeyondTrace) or the mode is not one of the three names (UnknownMode) |
| CoherenceScorer.IdenticalChannelSums | angle_scan.py:25-26 | n identical channels x give stack n·x and energy n·x² |
| CoherenceScorer.IdenticalChannelsFullSemblance | angle_scan.py:28-33 | identical channels give semblance 1 at every interior sample with non-zero centre energy, and 0 at the others |
| CoherenceScorer.IdenticalChannelsSembTrace | angle_scan.py:28-38 | for identical channels the 'semb' trace exists; it is 1 at every interior sample with non-zero energy and 0 where the energy is 0, and every sample, edges included, is 0 or 1 |
| CoherenceScorer.ScaledWindowSemblance | angle_scan.py:32-33 | a window with stack n·x over energy n·x² has semblance 1, or 0 when the centre energy is 0 |
| CoherenceScorer.ScaledWindowRatio | angle_scan.py:32-33 | a stack n·x over energies n·x² gives the ratio ΣS²/ΣQ/n = 1 when ΣQ > 0 |
| CoherenceScorer.IdenticalChannelsStackIsChannel | angle_scan.py:39-40 | in 'stack' mode, identical channels give back the channel itself |
| CoherenceScorer.CancellingChannelsZeroWindows | angle_scan.py:28-33 | channels that sum to 0 at every sample give semblance 0 in every window |
| CoherenceScorer.CancellingChannelsZeroTrace | angle_scan.py:28-44 | channels that sum to 0 at every sample give 0 everywhere, in every mode that succeeds |
| CoherenceScorer.ShortTraceZeroSemblance | angle_scan.py:28-36 | when h < nt < 2h+1 no window fits, and the whole 'semb' trace is 0 |
| AngleScanner.RoundHalfEven | angle_scan.py:110 | the result is within 1/2 of x, and an exact tie goes to the even integer |
| AngleScanner.SampleWindow | angle_scan.py:110 | the window in samples is within 1/2 of windowSeconds/dt and is non-negative |
| AngleScanner.IsFirstMax | angle_scan.py:118 | a first-maximum index lies inside the column, and no earlier index holds the same value |
| AngleScanner.AngleTrace | angle_scan.py:112 | one delay row's coherence trace has nt samples |
| AngleScanner.Gather | angle_scan.py:109-112 | rows gathered in order succeed exactly when every row does, and row i is then value i |
| AngleScanner.GatherFirstFailure | angle_scan.py:109-112 | a failed gathering carries the error of its first failing row, and every earlier row succeeds |
| AngleScanner.GatherStep | angle_scan.py:109-112 | a succeeding row extends the gathered prefix by its value |
| AngleScanner.GatherStops | angle_scan.py:109-112 | if every row before i succeeds and row i fails, the whole gathering fails with row i's error |
| AngleScanner.AngleSurface | angle_scan.py:111-112 | the surface exists exactly when every delay row's trace does; it then has one row of nt samples per delay row, row i being trace i |
| AngleScanner.SurfaceFirstFailure | angle_scan.py:111-112 | a failing surface carries the error of the first failing delay row, and all earlier rows succeed |
| AngleScanner.ScanSurface | angle_scan.py:103-112 | a successful scan has one row of nt samples per angle, and at least one angle unless nt = 0 |
| AngleScanner.ScanAngles | angle_scan.py:87-121 | fails exactly when `ScanSurface` fails: channel-count mismatch, a row's error, or argmax over no angles. Otherwise, for every sample t, `ang_inds[t]` is the first index of a largest value in column t and `coherence[t]` is that value |
| AngleScanner.FillSurface | angle_scan.py:109-112 | the first loop writes row i as the trace of delay row i, and stops with the first failing row's error |
| AngleScanner.ShiftAndScore | angle_scan.py:112 | `calc_coherence(apply_moveout(...))` for one delay row agrees with `AngleTrace` in its outcome, error and values |
| AngleScanner.ReduceColumns | angle_scan.py:114-119 | the second loop leaves, for each sample, the first index of a column maximum and the value there |
| AngleScanner.CopyRow | angle_scan.py:112 | row i of the surface becomes the trace; all other rows are unchanged |
| AngleScanner.ArgMaxColumn | angle_scan.py:118 | the result is the lowest index of a largest value in column t |
| AngleScanner.DelayOffsetInvariance | angle_scan.py:112 | adding one constant to a delay row, with the entries kept non-negative, leaves its trace unchanged |
| AngleScanner.FirstMaxUnique | angle_scan.py:118 | a column has exactly one first-maximum index |
| TravelTimePredictor.MaxAbs | TT_prediction.py:19 | the largest magnitude bounds every angle's magnitude and is attained |
| TravelTimePredictor.ToRadians | TT_prediction.py:19-20 | the converted grid has one angle per input angle |
| TravelTimePredictor.Ratios | TT_prediction.py:27-28 | the nz-1 interface ratios are positive |
| TravelTimePredictor.Averages | TT_prediction.py:30-31 | the nz-1 flipped layer averages are positive |
| TravelTimePredictor.Refract | TT_prediction.py:38 | with velocity ratio 1 the angle is unchanged wherever arcsin undoes sin; with sin θ = 0 and arcsin 0 = 0 the refracted angle is 0 |
| TravelTimePredictor.IncidenceAngle | TT_prediction.py:35-39 | starting from angle 0, with sin 0 = 0 and arcsin 0 = 0, the angle above every interface is 0 |
| TravelTimePredictor.StraightRay | TT_prediction.py:35-39 | with velocity ratio 1 at every interface below j, and arcsin undoing sin at the starting angle, the angle above interface j is the starting angle |
| TravelTimePredictor.Incidences | TT_prediction.py:34-39 | one angle per interface plus the bottom angle |
| TravelTimePredictor.RunningDelays | TT_prediction.py:41 | one delay per entry of inc_angs, the first (`delays[i, 0]`, the deepest channel) being 0 |
| TravelTimePredictor.BottomUpRow | TT_prediction.py:27-41 | the bottom-up row of one angle has nz delays, the deepest being 0 |
| TravelTimePredictor.Reverse | TT_prediction.py:43 | the reversed row has the same length, and entry c of the input is entry len-1-c of the result |
| TravelTimePredictor.DelayRow | TT_prediction.py:41-43 | the top-down row of one angle has nz delays, and the last (deepest) channel's is 0 |
| TravelTimePredictor.TravelTimes | TT_prediction.py:19-43 | a successful table has one row of nz delays per angle |
| TravelTimePredictor.PredictDelays | TT_prediction.py:7-43 | fails exactly when `TravelTimes` fails (empty angle grid or empty profile), with the same error; otherwise returns a fresh nang×nz array equal to the table |
| TravelTimePredictor.VelocityRatios | TT_prediction.py:24-28 | the first loop fills `vel_ratio` with v[nz-1-i]/v[nz-2-i] |
| TravelTimePredictor.IncidenceAngles | TT_prediction.py:34-39 | the inner loop records the Snell-recursion angles bottom-up, `next_ang` carried across iterations |
| TravelTimePredictor.IncidenceStep | TT_prediction.py:38-39 | consecutive incidence angles are linked by one Snell step across the interface between them |
| TravelTimePredictor.BuildTable | TT_prediction.py:24-43 | returns a fresh nang×nz array whose row j is the top-down delay row of angle j |
| TravelTimePredictor.FillTable | TT_prediction.py:33-41 | after the loop over angles, row i (bottom-up) is the running delay for angle i |
| TravelTimePredictor.FillDelayRow | TT_prediction.py:41 | `delays[i, 1:]` receives the running delays; entry 0 stays 0 and the other rows are unchanged |
| TravelTimePredictor.ReverseRows | TT_prediction.py:43 | the result is every row reversed |
| TravelTimePredictor.LayerSlowness | TT_prediction.py:30-31 | one term per layer |
| TravelTimePredictor.CumulativeIsPrefixSum | TT_prediction.py:41 | the cumulative sum over the bottom m layers is the sum of their terms `cos θ(k+1)/avg[k]`, with avg[k] = (v[nz-2-k]+v[nz-1-k])/2 |
| TravelTimePredictor.DelayRowEntry | TT_prediction.py:43 | channel c of a row is entry nz-1-c of the bottom-up running delays |
| TravelTimePredictor.PrefixSlowness | TT_prediction.py:41 | the reference bottom-up row has nz entries |
| TravelTimePredictor.ReversedSums | TT_prediction.py:41-43 | the reference top-down row has nz entries |
| TravelTimePredictor.BottomUpEntry | TT_prediction.py:41 | entry m of the running delays is dz times the summed layer terms of the bottom m layers |
| TravelTimePredictor.DelayRowIsReversedSum | TT_prediction.py:41-43 | one row equals the reference row: channel c carries dz times the summed terms of the nz-1-c layers below it |
| TravelTimePredictor.TableRow | TT_prediction.py:33-43 | row i of the table is the delay row of converted angle i |
| TravelTimePredictor.TableIsReversedSums | TT_prediction.py:19-43 | for non-empty inputs the table exists, and every row is the reversed cumulative sum along its ray |
| TravelTimePredictor.LastColumnZero | TT_prediction.py:41-43 | the deepest channel (last column) has delay 0 for every angle; with nz = 1 the table is one zero column |
| TravelTimePredictor.ZeroGridUnchanged | TT_prediction.py:19-20 | a grid of zero angles is not converted |
| TravelTimePredictor.UniformCumulative | TT_prediction.py:41 | through layers of speed u with cos = 1, the running sum over m layers is m/u |
| TravelTimePredictor.UniformBottomUp | TT_prediction.py:28-41 | uniform velocity u at angle 0 gives running delay dz·m/u over the bottom m layers |
| TravelTimePredictor.UniformRowEntry | TT_prediction.py:28-43 | uniform velocity u at angle 0 gives delay dz·(nz-1-c)/u at channel c of a row |
| TravelTimePredictor.UniformProfileDelays | TT_prediction.py:28-43 | for any angle grid, uniform velocity u gives delay dz·(nz-1-c)/u at channel c in every row whose angle is 0 |
| TravelTimePredictor.CumulativeMonotone | TT_prediction.py:41 | with non-negative cosines, the running sum is non-negative and does not decrease with the layer count |
| TravelTimePredictor.RunningDelaysOrdered | TT_prediction.py:41 | with dz ≥ 0, the running delays are non-negative and non-decreasing bottom-up |
| TravelTimePredictor.DelayRowOrdered | TT_prediction.py:41-43 | a deeper channel's delay is between 0 and a shallower channel's delay |
| TravelTimePredictor.DelayRowNonIncreasing | TT_prediction.py:41-43 | each row is non-negative and non-increasing with channel index |
| TravelTimePredictor.RowsNonIncreasing | TT_prediction.py:41-43 | with positive velocities, dz ≥ 0 and non-negative cosines along every ray, every table row is non-negative and non-increasing with channel index |
| TravelTimePredictor.ConversionIdempotent | TT_prediction.py:19-20 | for grids within ±180, converting twice gives the same grid as converting once |
| TravelTimePredictor.DegreeGridMatchesRadians | TT_prediction.py:19-20 | a degree grid whose magnitude is above π and at most 180 gives the same table (or error) as its exact radian image |

## Left out

- float32 storage (angle_scan.py:19-21, 72, 109, 115) and float rounding are not modelled. All arithmetic is exact `real`.
- NaN is not modelled: neither post-critical arcsin arguments nor NaN handling inside `np.argmax`.
- The `@njit` compilation and the `prange` parallel loops are modelled as sequential loops. Each iteration writes a disjoint row or cell, so the results are the same. The one difference: under parallel execution the model's "first failing row" error is the error of the lowest failing row.
- sin, arcsin and cos are functions supplied by the caller (`Trig`); their numerical definitions are not modelled. `IncidenceAngle`'s contract assumes sin 0 = 0 and arcsin 0 = 0. `UniformProfileDelays` also assumes cos 0 = 1. `RowsNonIncreasing` assumes cos ≥ 0 on the angles used.
- The frequency-domain shifting mentioned at angle_scan.py:60 does not exist in the code and is not modelled.
- The `n_live_ch` test at angle_scan.py:29 is not modelled: the name is undefined in the code. The model keeps only the `Q[w] == 0` test.
- CoherenceScorer.CalcCoherence requires at least one channel. With none, the stack mode divides 0 by 0. Inside `scan_angles` this case never arises: `apply_moveout` already fails on an empty moveout vector.
- CoherenceScorer.CalcCoherence with a half window of at least nt: the code reads `semblance_res[half_win]` out of range. The model returns `Fail(WindowBeyondTrace)` instead.
- AngleScanner.ScanAngles requires a window in seconds ≥ 0 and dt > 0. The model does not cover negative windows or a zero or negative sampling interval.
- MoveoutShifter.ApplyMoveout requires dt > 0. Division by a zero dt is not modelled.
- TravelTimePredictor.PredictDelays and TravelTimePredictor.TravelTimes require positive velocities. Zero or negative velocities (division by zero, infinities) are not modelled.
- The slice start `samp_bef` (angle_scan.py:77) is modelled as the integer it holds. `np.rint` returns a float, and a float slice bound is refused by numpy (a TypeError) and by numba's compiler. So `apply_moveout` as written cannot run at all, and the integer reading is a choice of this model.
- The methods that return fresh arrays (`ApplyMoveout`, `CalcCoherence`, `ScanAngles`, `PredictDelays` and their helpers) are specified against value functions. Their properties are proved as lemmas about those functions.

## Findings

| source | as written | input that shows it | evidently intended | confidence | as-written member | corrected member |
|---|---|---|---|---|---|---|
| angle_scan.py:79-80 | a fractional shift of 0 is replaced by 1, so a whole-sample shift k reads `in[t+k+1]` | channel [0, 1] with shift 0: output sample 0 is 1, not 0 | a fractional part of 0 is a plain copy of `in[t+k]`, so the least-shifted channel is unchanged (doc-comment at angle_scan.py:54) | not executed | MoveoutShifter.AsWrittenMovesLeastShiftedChannel | MoveoutShifter.LeastShiftedChannelCopied |
