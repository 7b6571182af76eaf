/** The travel-time table (pred_vertical_tt): for every incidence angle at the bottom of a
    vertical array, the delay at every channel, from the Snell recursion through the layered
    velocity profile. Velocities are given top-down; the recursion runs bottom-up. */
module TravelTimePredictor {
  import opened Outcomes
  import opened Sums
  import opened Grids

  /** math.pi as a decimal. */
  const Pi: real := 3.141592653589793

  /** The trigonometric functions the computation calls, supplied by the caller. */
  datatype Trig = Trig(sin: real -> real, arcsin: real -> real, cos: real -> real)

  /** np.amax(np.abs(angles)). */
  function MaxAbs(s: seq<real>): (m: real)
    requires |s| > 0
    ensures forall i :: 0 <= i < |s| ==> Abs(s[i]) <= m
    ensures exists i :: 0 <= i < |s| && Abs(s[i]) == m
  {
    if |s| == 1 then Abs(s[0])
    else
      var rest := MaxAbs(s[1..]);
      assert forall i :: 1 <= i < |s| ==> s[i] == s[1..][i - 1];
      if Abs(s[0]) >= rest then Abs(s[0]) else rest
  }

  /** A grid whose largest magnitude exceeds pi is read as degrees and converted. */
  function ToRadians(angles: seq<real>): (r: seq<real>)
    requires |angles| > 0
    ensures |r| == |angles|
  {
    if MaxAbs(angles) > Pi then seq(|angles|, i requires 0 <= i < |angles| => angles[i] / 180.0 * Pi)
    else angles
  }

  predicate Positive(v: seq<real>)
  {
    forall k :: 0 <= k < |v| ==> v[k] > 0.0
  }

  /** vel_ratio[k] = velocity[nz-1-k] / velocity[nz-2-k]: interface k counted from the bottom. */
  function Ratios(v: seq<real>): (r: seq<real>)
    requires |v| > 0 && Positive(v)
    ensures |r| == |v| - 1 && Positive(r)
  {
    seq(|v| - 1, k requires 0 <= k < |v| - 1 => v[|v| - 1 - k] / v[|v| - 2 - k])
  }

  /** The flipped mean of adjacent velocities: layer k counted from the bottom. */
  function Averages(v: seq<real>): (r: seq<real>)
    requires |v| > 0 && Positive(v)
    ensures |r| == |v| - 1 && Positive(r)
  {
    seq(|v| - 1, k requires 0 <= k < |v| - 1 => 0.5 * (v[|v| - 2 - k] + v[|v| - 1 - k]))
  }

  /** Snell's law across one interface with velocity ratio q (lower over upper). */
  function Refract(angle: real, q: real, trig: Trig): (a: real)
    requires q > 0.0
    ensures q == 1.0 && trig.arcsin(trig.sin(angle)) == angle ==> a == angle
    ensures trig.sin(angle) == 0.0 && trig.arcsin(0.0) == 0.0 ==> a == 0.0
  {
    var x := trig.sin(angle) / q;
    assert q == 1.0 ==> x == trig.sin(angle);
    trig.arcsin(x)
  }

  /** Snell's law upward from the bottom: the angle above interface j. Angle 0 is a fixed point
      of the recursion when sin 0 = 0 and arcsin 0 = 0. */
  function IncidenceAngle(a0: real, ratio: seq<real>, trig: Trig, j: nat): (a: real)
    requires j <= |ratio| && Positive(ratio)
    ensures a0 == 0.0 && trig.sin(0.0) == 0.0 && trig.arcsin(0.0) == 0.0 ==> a == 0.0
  {
    if j == 0 then a0
    else Refract(IncidenceAngle(a0, ratio, trig, j - 1), ratio[j - 1], trig)
  }

  /** With no velocity contrast below interface j, a ray that sin and arcsin map back to itself
      goes straight up. */
  lemma {:induction false} StraightRay(a0: real, ratio: seq<real>, trig: Trig, j: nat)
    requires j <= |ratio| && Positive(ratio)
    requires forall k :: 0 <= k < j ==> ratio[k] == 1.0
    requires trig.arcsin(trig.sin(a0)) == a0
    ensures IncidenceAngle(a0, ratio, trig, j) == a0
  {
    if j > 0 {
      StraightRay(a0, ratio, trig, j - 1);
    }
  }

  /** The angles above every interface, the bottom one first (inc_angs). */
  function Incidences(a0: real, ratio: seq<real>, trig: Trig): (inc: seq<real>)
    requires Positive(ratio)
    ensures |inc| == |ratio| + 1
  {
    seq(|ratio| + 1, j requires 0 <= j <= |ratio| => IncidenceAngle(a0, ratio, trig, j))
  }

  /** The slowness along the path through the bottom m layers, before scaling by dz. */
  function Cumulative(avg: seq<real>, inc: seq<real>, trig: Trig, m: nat): real
    requires m <= |avg| && |inc| == |avg| + 1 && Positive(avg)
  {
    if m == 0 then 0.0
    else Cumulative(avg, inc, trig, m - 1) + 1.0 / avg[m - 1] * trig.cos(inc[m])
  }

  /** The delays counted from the bottom: entry m is dz times the slowness of the bottom m layers. */
  function BottomUpRow(v: seq<real>, dz: real, a0: real, trig: Trig): (row: seq<real>)
    requires |v| > 0 && Positive(v)
    ensures |row| == |v| && row[0] == 0.0
  {
    RunningDelays(Averages(v), Incidences(a0, Ratios(v), trig), trig, dz)
  }

  /** dz * cumsum, with the leading 0 of the deepest channel. */
  function RunningDelays(avg: seq<real>, inc: seq<real>, trig: Trig, dz: real): (row: seq<real>)
    requires |inc| == |avg| + 1 && Positive(avg)
    ensures |row| == |inc| && row[0] == 0.0
  {
    seq(|inc|, m requires 0 <= m < |inc| => dz * Cumulative(avg, inc, trig, m))
  }

  /** s read backwards (s[::-1]). */
  function Reverse(s: seq<real>): (r: seq<real>)
    ensures |r| == |s|
    ensures forall c :: 0 <= c < |s| ==> s[c] == r[|s| - 1 - c]
  {
    seq(|s|, c requires 0 <= c < |s| => s[|s| - 1 - c])
  }

  /** One row of the result, top-down: channel c lies nz-1-c layers above the bottom. */
  function DelayRow(v: seq<real>, dz: real, a0: real, trig: Trig): (row: seq<real>)
    requires |v| > 0 && Positive(v)
    ensures |row| == |v| && row[|v| - 1] == 0.0
  {
    Reverse(BottomUpRow(v, dz, a0, trig))
  }

  /** pred_vertical_tt as a value: the table, or the error raised. */
  function TravelTimes(v: seq<real>, dz: real, angles: seq<real>, trig: Trig): (r: Outcome<seq<seq<real>>>)
    requires Positive(v)
    ensures r.Ok? ==> |r.value| == |angles| && IsGrid(r.value, |v|)
  {
    if |angles| == 0 then Fail(EmptyReduction)
    else if |v| == 0 then Fail(NegativeDimension)
    else
      var rad := ToRadians(angles);
      Ok(seq(|angles|, i requires 0 <= i < |angles| => DelayRow(v, dz, rad[i], trig)))
  }

  /** pred_vertical_tt: converts the grid, fills the ratios, runs the recursion and the running
      sum for every angle, then reverses each row. */
  method PredictDelays(velocity: seq<real>, dz: real, angles: seq<real>, trig: Trig)
    returns (r: Outcome<array2<real>>)
    requires Positive(velocity)
    ensures var spec := TravelTimes(velocity, dz, angles, trig);
      (r.Fail? <==> spec.Fail?) && (r.Fail? ==> r.err == spec.err) &&
      (r.Ok? ==> fresh(r.value) && Cells(r.value) == spec.value)
  {
    if |angles| == 0 {
      return Fail(EmptyReduction);
    }
    var rad := ToRadians(angles);
    if |velocity| == 0 {
      return Fail(NegativeDimension);
    }
    var out := BuildTable(velocity, dz, rad, trig);
    assert forall j :: 0 <= j < |angles| ==> Cells(out)[j] == TravelTimes(velocity, dz, angles, trig).value[j];
    return Ok(out);
  }

  /** The work after the checks: the ratio loop, the table loop and the final reversal. */
  method BuildTable(velocity: seq<real>, dz: real, rad: seq<real>, trig: Trig) returns (out: array2<real>)
    requires |velocity| > 0 && Positive(velocity)
    ensures fresh(out) && out.Length0 == |rad| && out.Length1 == |velocity|
    ensures forall j :: 0 <= j < |rad| ==> Row(out, j) == DelayRow(velocity, dz, rad[j], trig)
  {
    var nz, nang := |velocity|, |rad|;
    var ratio := VelocityRatios(velocity);
    var avg := Averages(velocity);
    var delays := new real[nang, nz]((_, _) => 0.0);
    FillTable(delays, velocity, dz, rad, ratio, avg, trig);
    out := ReverseRows(delays);
  }

  /** The loop over angles: row i (bottom-up) from the recursion and running sum for angle i. */
  method FillTable(delays: array2<real>, v: seq<real>, dz: real, rad: seq<real>, ratio: array<real>,
                   avg: seq<real>, trig: Trig)
    requires |v| > 0 && Positive(v) && ratio[..] == Ratios(v) && avg == Averages(v)
    requires delays.Length0 == |rad| && delays.Length1 == |v|
    requires forall j, c :: 0 <= j < |rad| && 0 <= c < |v| ==> delays[j, c] == 0.0
    modifies delays
    ensures forall j :: 0 <= j < |rad| ==> Row(delays, j) == BottomUpRow(v, dz, rad[j], trig)
  {
    var nz, nang := |v|, |rad|;
    for i := 0 to nang
      invariant ratio[..] == Ratios(v)
      invariant forall j :: 0 <= j < i ==> Row(delays, j) == BottomUpRow(v, dz, rad[j], trig)
      invariant forall j :: i <= j < nang ==> Row(delays, j) == seq(nz, _ => 0.0)
    {
      var inc := IncidenceAngles(rad[i], ratio[..], trig);
      var row := RunningDelays(avg, inc[..], trig, dz);
      assert row[0] == dz * 0.0;
      assert delays[i, 0] == Row(delays, i)[0] == 0.0;
      FillDelayRow(delays, i, row);
    }
  }

  /** The first loop: vel_ratio filled bottom-up. */
  method VelocityRatios(v: seq<real>) returns (ratio: array<real>)
    requires |v| > 0 && Positive(v)
    ensures fresh(ratio) && ratio[..] == Ratios(v)
  {
    var nz := |v|;
    ratio := new real[nz - 1];
    for i := 0 to nz - 1
      invariant forall k :: 0 <= k < i ==> ratio[k] == v[nz - 1 - k] / v[nz - 2 - k]
    {
      ratio[i] := v[nz - 1 - i] / v[nz - 2 - i];
    }
  }

  /** The inner loop over interfaces: next_ang carried upward, inc_angs recorded. */
  method IncidenceAngles(a0: real, ratio: seq<real>, trig: Trig) returns (inc: array<real>)
    requires Positive(ratio)
    ensures fresh(inc) && inc[..] == Incidences(a0, ratio, trig)
  {
    ghost var spec := Incidences(a0, ratio, trig);
    inc := new real[|ratio| + 1];
    var next := a0;
    inc[0] := next;
    for j := 0 to |ratio|
      invariant next == spec[j]
      invariant forall k :: 0 <= k <= j ==> inc[k] == spec[k]
    {
      IncidenceStep(a0, ratio, trig, j);
      next := Refract(next, ratio[j], trig);
      inc[j + 1] := next;
    }
  }

  /** One step of Snell's law links consecutive incidence angles. */
  lemma IncidenceStep(a0: real, ratio: seq<real>, trig: Trig, j: nat)
    requires Positive(ratio) && j < |ratio|
    ensures Incidences(a0, ratio, trig)[j + 1] == Refract(Incidences(a0, ratio, trig)[j], ratio[j], trig)
  {
  }

  /** delays[i, 1:] = row[1:]; the deepest entry stays 0. */
  method FillDelayRow(delays: array2<real>, i: nat, row: seq<real>)
    requires i < delays.Length0 && delays.Length1 == |row| > 0
    requires delays[i, 0] == 0.0 && row[0] == 0.0
    modifies delays
    ensures Row(delays, i) == row
    ensures forall j :: 0 <= j < delays.Length0 && j != i ==> Row(delays, j) == old(Row(delays, j))
  {
    for c := 1 to |row|
      invariant delays[i, 0] == 0.0
      invariant forall u :: 1 <= u < c ==> delays[i, u] == row[u]
      invariant forall j, u :: 0 <= j < delays.Length0 && j != i && 0 <= u < delays.Length1 ==>
        delays[j, u] == old(delays[j, u])
    {
      delays[i, c] := row[c];
    }
  }

  /** delays[:, ::-1]. */
  method ReverseRows(delays: array2<real>) returns (out: array2<real>)
    ensures fresh(out) && out.Length0 == delays.Length0 && out.Length1 == delays.Length1
    ensures forall i :: 0 <= i < out.Length0 ==> Row(out, i) == Reverse(Row(delays, i))
  {
    var nz := delays.Length1;
    out := new real[delays.Length0, nz]((i, c) reads delays =>
      if 0 <= i < delays.Length0 && 0 <= c < nz then delays[i, nz - 1 - c] else 0.0);
    forall i | 0 <= i < out.Length0
      ensures Row(out, i) == Reverse(Row(delays, i))
    {
      assert forall c :: 0 <= c < nz ==> Row(out, i)[c] == Reverse(Row(delays, i))[c];
    }
  }

  // ---------------------------------------------------------------------------------------------
  // Properties of the table

  /** The term 1/avg_vel[k] * cos(inc_angs[k+1]) of layer k (from the bottom), as a sequence
      over all layers. */
  function LayerSlowness(v: seq<real>, a0: real, trig: Trig): (s: seq<real>)
    requires |v| > 0 && Positive(v)
    ensures |s| == |v| - 1
  {
    var avg, inc := Averages(v), Incidences(a0, Ratios(v), trig);
    seq(|v| - 1, k requires 0 <= k < |v| - 1 => 1.0 / avg[k] * trig.cos(inc[k + 1]))
  }

  /** The running sum over the bottom m layers is the sum of their first m layer terms. */
  lemma {:induction false} CumulativeIsPrefixSum(v: seq<real>, a0: real, trig: Trig, m: nat)
    requires Positive(v) && m < |v|
    ensures Cumulative(Averages(v), Incidences(a0, Ratios(v), trig), trig, m) ==
      Sum(LayerSlowness(v, a0, trig)[..m])
  {
    if m > 0 {
      CumulativeIsPrefixSum(v, a0, trig, m - 1);
      PrefixSumStep(LayerSlowness(v, a0, trig), m);
      LayerTerm(v, a0, trig, m - 1);
    }
  }

  /** Layer term k is the slowness term that the running sum adds for layer k. */
  lemma LayerTerm(v: seq<real>, a0: real, trig: Trig, k: nat)
    requires Positive(v) && k < |v| - 1
    ensures LayerSlowness(v, a0, trig)[k] ==
      1.0 / Averages(v)[k] * trig.cos(Incidences(a0, Ratios(v), trig)[k + 1])
  {
  }

  /** Entry c of a row is entry nz-1-c of the bottom-up row: channel c lies nz-1-c layers above
      the bottom. */
  lemma DelayRowEntry(v: seq<real>, dz: real, a0: real, trig: Trig, c: nat)
    requires Positive(v) && c < |v|
    ensures DelayRow(v, dz, a0, trig)[c] == BottomUpRow(v, dz, a0, trig)[|v| - 1 - c]
  {
  }

  /** The reference bottom-up row: entry m is dz times the summed layer terms of the bottom m
      layers. */
  function PrefixSlowness(v: seq<real>, dz: real, a0: real, trig: Trig): (row: seq<real>)
    requires |v| > 0 && Positive(v)
    ensures |row| == |v|
  {
    seq(|v|, m requires 0 <= m < |v| => dz * Sum(LayerSlowness(v, a0, trig)[..m]))
  }

  /** The reference row, top-down: channel c carries dz times the summed layer terms of the
      nz-1-c layers below it. */
  function ReversedSums(v: seq<real>, dz: real, a0: real, trig: Trig): (row: seq<real>)
    requires |v| > 0 && Positive(v)
    ensures |row| == |v|
  {
    Reverse(PrefixSlowness(v, dz, a0, trig))
  }

  /** Entry m of the bottom-up row is entry m of the reference bottom-up row. */
  lemma BottomUpEntry(v: seq<real>, dz: real, a0: real, trig: Trig, m: nat)
    requires Positive(v) && m < |v|
    ensures BottomUpRow(v, dz, a0, trig)[m] == PrefixSlowness(v, dz, a0, trig)[m]
  {
    CumulativeIsPrefixSum(v, a0, trig, m);
  }

  /** One row is the reversed cumulative sum of the layer terms. */
  lemma DelayRowIsReversedSum(v: seq<real>, dz: real, a0: real, trig: Trig)
    requires Positive(v) && |v| > 0
    ensures DelayRow(v, dz, a0, trig) == ReversedSums(v, dz, a0, trig)
  {
    var up, ref := BottomUpRow(v, dz, a0, trig), PrefixSlowness(v, dz, a0, trig);
    forall m | 0 <= m < |v|
      ensures up[m] == ref[m]
    {
      BottomUpEntry(v, dz, a0, trig, m);
    }
    assert up == ref;
  }

  /** Row i of the table is the delay row of converted angle i. */
  lemma TableRow(v: seq<real>, dz: real, angles: seq<real>, trig: Trig, i: nat)
    requires Positive(v) && |v| > 0 && i < |angles|
    ensures var r := TravelTimes(v, dz, angles, trig);
      r.Ok? && r.value[i] == DelayRow(v, dz, ToRadians(angles)[i], trig)
  {
  }

  /** Every row is the reversed cumulative sum of the layer terms along its ray. */
  lemma TableIsReversedSums(v: seq<real>, dz: real, angles: seq<real>, trig: Trig)
    requires Positive(v) && |v| > 0 && |angles| > 0
    ensures var r := TravelTimes(v, dz, angles, trig);
      r.Ok? && forall i :: 0 <= i < |angles| ==> r.value[i] == ReversedSums(v, dz, ToRadians(angles)[i], trig)
  {
    forall i | 0 <= i < |angles|
      ensures TravelTimes(v, dz, angles, trig).value[i] == ReversedSums(v, dz, ToRadians(angles)[i], trig)
    {
      TableRow(v, dz, angles, trig, i);
      DelayRowIsReversedSum(v, dz, ToRadians(angles)[i], trig);
    }
  }

  /** The deepest channel (the last column) has delay 0 for every angle; with a single channel
      the table is one zero column. */
  lemma LastColumnZero(v: seq<real>, dz: real, angles: seq<real>, trig: Trig)
    requires Positive(v) && |v| > 0 && |angles| > 0
    ensures var r := TravelTimes(v, dz, angles, trig);
      r.Ok? && forall i :: 0 <= i < |angles| ==> r.value[i][|v| - 1] == 0.0
  {
    forall i | 0 <= i < |angles|
      ensures TravelTimes(v, dz, angles, trig).value[i][|v| - 1] == 0.0
    {
      var a := ToRadians(angles)[i];
      TableRow(v, dz, angles, trig, i);
      DelayRowEntry(v, dz, a, trig, |v| - 1);
      assert BottomUpRow(v, dz, a, trig)[0] == dz * 0.0;
    }
  }

  /** A grid of zeros is used as it is. */
  lemma ZeroGridUnchanged(angles: seq<real>)
    requires |angles| > 0 && forall i :: 0 <= i < |angles| ==> angles[i] == 0.0
    ensures ToRadians(angles) == angles
  {
    var i :| 0 <= i < |angles| && Abs(angles[i]) == MaxAbs(angles);
  }

  /** Through layers of one slowness 1/u with cos = 1, the running sum over m layers is m/u. */
  lemma {:induction false} UniformCumulative(avg: seq<real>, inc: seq<real>, trig: Trig, u: real, m: nat)
    requires m <= |avg| && |inc| == |avg| + 1 && Positive(avg) && u > 0.0
    requires forall k :: 0 <= k < |avg| ==> avg[k] == u
    requires forall k :: 0 < k < |inc| ==> trig.cos(inc[k]) == 1.0
    ensures Cumulative(avg, inc, trig, m) == m as real / u
  {
    if m > 0 {
      UniformCumulative(avg, inc, trig, u, m - 1);
      OneMoreLayer(m as real, u);
    }
  }

  lemma OneMoreLayer(m: real, u: real)
    requires u > 0.0
    ensures (m - 1.0) / u + 1.0 / u * 1.0 == m / u
  {
  }

  /** Under a uniform profile u and vertical incidence, the bottom-up row counts layers: entry m
      is dz * m / u. */
  lemma UniformBottomUp(v: seq<real>, u: real, dz: real, trig: Trig, m: nat)
    requires |v| > 0 && u > 0.0 && forall k :: 0 <= k < |v| ==> v[k] == u
    requires trig.sin(0.0) == 0.0 && trig.arcsin(0.0) == 0.0 && trig.cos(0.0) == 1.0
    requires m < |v|
    ensures BottomUpRow(v, dz, 0.0, trig)[m] == dz * (m as real / u)
  {
    var ratio, avg := Ratios(v), Averages(v);
    var inc := Incidences(0.0, ratio, trig);
    assert forall j :: 0 <= j < |inc| ==> inc[j] == 0.0;
    forall k | 0 <= k < |avg|
      ensures avg[k] == u
    {
      assert v[|v| - 2 - k] == u && v[|v| - 1 - k] == u;
    }
    UniformCumulative(avg, inc, trig, u, m);
  }

  /** A uniform profile u: every row at vertical incidence has channel c waiting dz * (nz-1-c) / u,
      whatever the other angles of the grid are. */
  lemma UniformProfileDelays(v: seq<real>, u: real, dz: real, angles: seq<real>, trig: Trig)
    requires |v| > 0 && u > 0.0 && forall k :: 0 <= k < |v| ==> v[k] == u
    requires |angles| > 0
    requires trig.sin(0.0) == 0.0 && trig.arcsin(0.0) == 0.0 && trig.cos(0.0) == 1.0
    ensures var r := TravelTimes(v, dz, angles, trig);
      r.Ok? && forall i, c :: 0 <= i < |angles| && angles[i] == 0.0 && 0 <= c < |v| ==>
        r.value[i][c] == dz * ((|v| - 1 - c) as real / u)
  {
    TableRow(v, dz, angles, trig, 0);
    forall i, c | 0 <= i < |angles| && angles[i] == 0.0 && 0 <= c < |v|
      ensures TravelTimes(v, dz, angles, trig).value[i][c] == dz * ((|v| - 1 - c) as real / u)
    {
      assert ToRadians(angles)[i] == 0.0;
      TableRow(v, dz, angles, trig, i);
      UniformRowEntry(v, u, dz, trig, c);
    }
  }

  lemma UniformRowEntry(v: seq<real>, u: real, dz: real, trig: Trig, c: nat)
    requires |v| > 0 && u > 0.0 && forall k :: 0 <= k < |v| ==> v[k] == u
    requires trig.sin(0.0) == 0.0 && trig.arcsin(0.0) == 0.0 && trig.cos(0.0) == 1.0
    requires c < |v|
    ensures DelayRow(v, dz, 0.0, trig)[c] == dz * ((|v| - 1 - c) as real / u)
  {
    DelayRowEntry(v, dz, 0.0, trig, c);
    UniformBottomUp(v, u, dz, trig, |v| - 1 - c);
  }

  /** The running sum never decreases and never goes below 0 when cos is non-negative. */
  lemma {:induction false} CumulativeMonotone(avg: seq<real>, inc: seq<real>, trig: Trig, m: nat, n: nat)
    requires m <= n <= |avg| && |inc| == |avg| + 1 && Positive(avg)
    requires forall k :: 0 < k < |inc| ==> trig.cos(inc[k]) >= 0.0
    ensures 0.0 <= Cumulative(avg, inc, trig, m) <= Cumulative(avg, inc, trig, n)
  {
    if n > 0 {
      if m < n {
        CumulativeMonotone(avg, inc, trig, m, n - 1);
      } else {
        CumulativeMonotone(avg, inc, trig, n - 1, n - 1);
      }
      ProductNonNegative(1.0 / avg[n - 1], trig.cos(inc[n]));
    }
  }

  lemma ScaleMonotone(dz: real, a: real, b: real, x: real, y: real)
    requires dz >= 0.0 && 0.0 <= a <= b && x == dz * a && y == dz * b
    ensures 0.0 <= x <= y
  {
    ProductNonNegative(dz, a);
    ProductNonNegative(dz, b - a);
  }

  /** Running delays are non-negative and grow with the number of layers summed. */
  lemma RunningDelaysOrdered(avg: seq<real>, inc: seq<real>, trig: Trig, dz: real, m: nat, n: nat)
    requires |inc| == |avg| + 1 && Positive(avg) && m <= n < |inc| && dz >= 0.0
    requires forall k :: 0 < k < |inc| ==> trig.cos(inc[k]) >= 0.0
    ensures 0.0 <= RunningDelays(avg, inc, trig, dz)[m] <= RunningDelays(avg, inc, trig, dz)[n]
  {
    var row := RunningDelays(avg, inc, trig, dz);
    var lo, hi := Cumulative(avg, inc, trig, m), Cumulative(avg, inc, trig, n);
    CumulativeMonotone(avg, inc, trig, m, n);
    ScaleMonotone(dz, lo, hi, row[m], row[n]);
  }

  /** Channel d at or below channel c waits no longer than c, and not less than 0. */
  lemma DelayRowOrdered(v: seq<real>, dz: real, a0: real, trig: Trig, c: nat, d: nat)
    requires Positive(v) && c <= d < |v| && dz >= 0.0
    requires var inc := Incidences(a0, Ratios(v), trig);
      forall k :: 0 < k < |inc| ==> trig.cos(inc[k]) >= 0.0
    ensures 0.0 <= DelayRow(v, dz, a0, trig)[d] <= DelayRow(v, dz, a0, trig)[c]
  {
    var avg, inc := Averages(v), Incidences(a0, Ratios(v), trig);
    var up := RunningDelays(avg, inc, trig, dz);
    assert DelayRow(v, dz, a0, trig)[d] == up[|v| - 1 - d];
    assert DelayRow(v, dz, a0, trig)[c] == up[|v| - 1 - c];
    RunningDelaysOrdered(avg, inc, trig, dz, |v| - 1 - d, |v| - 1 - c);
  }

  /** One row is non-negative and non-increasing when cos is non-negative along its ray. */
  lemma DelayRowNonIncreasing(v: seq<real>, dz: real, a0: real, trig: Trig)
    requires Positive(v) && |v| > 0 && dz >= 0.0
    requires forall j :: 0 < j < |v| ==> trig.cos(IncidenceAngle(a0, Ratios(v), trig, j)) >= 0.0
    ensures var row := DelayRow(v, dz, a0, trig);
      forall c, d :: 0 <= c <= d < |v| ==> 0.0 <= row[d] <= row[c]
  {
    var inc := Incidences(a0, Ratios(v), trig);
    assert forall k :: 0 < k < |inc| ==> inc[k] == IncidenceAngle(a0, Ratios(v), trig, k);
    forall c, d | 0 <= c <= d < |v|
      ensures 0.0 <= DelayRow(v, dz, a0, trig)[d] <= DelayRow(v, dz, a0, trig)[c]
    {
      DelayRowOrdered(v, dz, a0, trig, c, d);
    }
  }

  /** With positive velocities, dz >= 0 and non-negative cosines along every ray, delays are
      non-negative and each row is non-increasing in channel index: the shallowest channel waits
      longest. */
  lemma RowsNonIncreasing(v: seq<real>, dz: real, angles: seq<real>, trig: Trig)
    requires Positive(v) && |v| > 0 && |angles| > 0 && dz >= 0.0
    requires forall i, j :: 0 <= i < |angles| && 0 < j < |v| ==>
      trig.cos(IncidenceAngle(ToRadians(angles)[i], Ratios(v), trig, j)) >= 0.0
    ensures var r := TravelTimes(v, dz, angles, trig);
      r.Ok? && forall i, c, d :: 0 <= i < |angles| && 0 <= c <= d < |v| ==>
        0.0 <= r.value[i][d] <= r.value[i][c]
  {
    forall i | 0 <= i < |angles|
      ensures var r := TravelTimes(v, dz, angles, trig);
        forall c, d :: 0 <= c <= d < |v| ==> 0.0 <= r.value[i][d] <= r.value[i][c]
    {
      TableRow(v, dz, angles, trig, i);
      DelayRowNonIncreasing(v, dz, ToRadians(angles)[i], trig);
    }
  }

  /** A grid whose magnitudes stay within 180 is converted at most once: the conversion is
      idempotent. */
  lemma ConversionIdempotent(g: seq<real>)
    requires |g| > 0 && MaxAbs(g) <= 180.0
    ensures ToRadians(ToRadians(g)) == ToRadians(g)
  {
    var r := ToRadians(g);
    if MaxAbs(g) > Pi {
      forall i | 0 <= i < |g|
        ensures Abs(r[i]) <= Pi
      {
        assert Abs(g[i]) <= 180.0;
      }
      var i :| 0 <= i < |r| && Abs(r[i]) == MaxAbs(r);
    }
  }

  /** A degree grid (largest magnitude above pi, at most 180) and its exact radian image give the
      same table. */
  lemma DegreeGridMatchesRadians(v: seq<real>, dz: real, g: seq<real>, trig: Trig)
    requires Positive(v) && |g| > 0 && Pi < MaxAbs(g) <= 180.0
    ensures TravelTimes(v, dz, g, trig) ==
      TravelTimes(v, dz, seq(|g|, i requires 0 <= i < |g| => g[i] / 180.0 * Pi), trig)
  {
    ConversionIdempotent(g);
  }
}
