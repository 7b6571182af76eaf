/** The angle scanner (scan_angles): one coherence trace per candidate delay row, then, at
    every sample, the first angle index attaining the largest coherence. */
module AngleScanner {
  import opened Outcomes
  import opened Grids
  import opened MoveoutShifter
  import opened CoherenceScorer

  /** np.rint: the nearest integer, ties to the even one. */
  function RoundHalfEven(x: real): (n: int)
    ensures x - 0.5 <= n as real <= x + 0.5
    ensures (n as real - x == 0.5 || x - n as real == 0.5) ==> n % 2 == 0
  {
    var f := x.Floor;
    var frac := x - f as real;
    if frac < 0.5 then f
    else if frac > 0.5 then f + 1
    else if f % 2 == 0 then f
    else f + 1
  }

  /** The window in samples, np.rint(semb_win / dt), for a non-negative window in seconds. */
  function SampleWindow(windowSeconds: real, dt: real): (w: nat)
    requires windowSeconds >= 0.0 && dt > 0.0
    ensures w as real - 0.5 <= windowSeconds / dt <= w as real + 0.5
  {
    var n := RoundHalfEven(windowSeconds / dt);
    assert windowSeconds / dt >= 0.0;
    n
  }

  /** k is the first index of a largest entry of col (np.argmax). */
  predicate IsFirstMax(col: seq<real>, k: nat): (first: bool)
    ensures first ==> k < |col| && forall j :: 0 <= j < |col| && col[j] == col[k] ==> k <= j
  {
    k < |col| &&
    (forall i :: 0 <= i < |col| ==> col[i] <= col[k]) &&
    (forall i :: 0 <= i < k ==> col[i] < col[k])
  }

  /** The coherence trace of the block shifted by one delay row, or the error raised on the way. */
  function AngleTrace(d: seq<seq<real>>, nt: nat, delays: seq<real>, dt: real, window: nat, mode: string)
    : (r: Outcome<seq<real>>)
    requires IsGrid(d, nt) && dt > 0.0
    ensures r.Ok? ==> |r.value| == nt
  {
    match MoveoutError(|d|, nt, delays, dt)
    case Some(e) => Fail(e)
    case None => CoherenceTrace(Moved(d, nt, delays, dt), nt, window, mode)
  }

  /** Rows produced in order, or the error of the first one that fails. */
  function Gather(outs: seq<Outcome<seq<real>>>): (r: Outcome<seq<seq<real>>>)
    ensures r.Ok? <==> forall i :: 0 <= i < |outs| ==> outs[i].Ok?
    ensures r.Ok? ==> |r.value| == |outs| && forall i :: 0 <= i < |outs| ==> r.value[i] == outs[i].value
  {
    if |outs| == 0 then Ok([])
    else
      match Gather(outs[..|outs| - 1])
      case Fail(e) => Fail(e)
      case Ok(rows) =>
        match outs[|outs| - 1]
        case Fail(e) => Fail(e)
        case Ok(row) => Ok(rows + [row])
  }

  /** A failure carries the error of the first failing row, and every row before it succeeds. */
  lemma {:induction false} GatherFirstFailure(outs: seq<Outcome<seq<real>>>)
    requires Gather(outs).Fail?
    ensures exists i :: 0 <= i < |outs| && outs[i] == Fail(Gather(outs).err) &&
                        forall j :: 0 <= j < i ==> outs[j].Ok?
  {
    var init := outs[..|outs| - 1];
    if Gather(init).Fail? {
      GatherFirstFailure(init);
      var i :| 0 <= i < |init| && init[i] == Fail(Gather(init).err) && forall j :: 0 <= j < i ==> init[j].Ok?;
      assert outs[i] == init[i];
      assert forall j :: 0 <= j < i ==> outs[j] == init[j];
    } else {
      assert forall j :: 0 <= j < |init| ==> outs[j] == init[j];
    }
  }

  /** A succeeding row extends the gathered prefix by its value. */
  lemma GatherStep(outs: seq<Outcome<seq<real>>>, i: nat, rows: seq<seq<real>>)
    requires i < |outs| && Gather(outs[..i]) == Ok(rows)
    ensures outs[i].Ok? ==> Gather(outs[..i + 1]) == Ok(rows + [outs[i].value])
  {
    assert outs[..i + 1][..i] == outs[..i];
  }

  /** When every row before i succeeds and row i fails, the whole gathering fails with row i's
      error. */
  lemma {:induction false} GatherStops(outs: seq<Outcome<seq<real>>>, i: nat)
    requires i < |outs| && Gather(outs[..i]).Ok? && outs[i].Fail?
    ensures Gather(outs) == Fail(outs[i].err)
  {
    var init := outs[..|outs| - 1];
    if |outs| == i + 1 {
      assert init == outs[..i];
    } else {
      assert init[..i] == outs[..i] && init[i] == outs[i];
      GatherStops(init, i);
    }
  }

  /** The outcome of every delay row, in table order. */
  function Traces(d: seq<seq<real>>, nt: nat, table: seq<seq<real>>, dt: real, window: nat, mode: string)
    : (ts: seq<Outcome<seq<real>>>)
    requires IsGrid(d, nt) && dt > 0.0
    ensures |ts| == |table|
    ensures forall i :: 0 <= i < |table| ==> ts[i] == AngleTrace(d, nt, table[i], dt, window, mode)
  {
    seq(|table|, i requires 0 <= i < |table| => AngleTrace(d, nt, table[i], dt, window, mode))
  }

  /** The coherence surface, one row per delay row, or the first error in row order. */
  function AngleSurface(d: seq<seq<real>>, nt: nat, table: seq<seq<real>>, dt: real, window: nat, mode: string)
    : (r: Outcome<seq<seq<real>>>)
    requires IsGrid(d, nt) && dt > 0.0
    ensures r.Ok? <==> forall i :: 0 <= i < |table| ==> AngleTrace(d, nt, table[i], dt, window, mode).Ok?
    ensures r.Ok? ==> |r.value| == |table| && IsGrid(r.value, nt)
    ensures r.Ok? ==> forall i :: 0 <= i < |table| ==> r.value[i] == AngleTrace(d, nt, table[i], dt, window, mode).value
  {
    Gather(Traces(d, nt, table, dt, window, mode))
  }

  /** A failing surface carries the error of the first failing delay row. */
  lemma SurfaceFirstFailure(d: seq<seq<real>>, nt: nat, table: seq<seq<real>>, dt: real, window: nat, mode: string)
    requires IsGrid(d, nt) && dt > 0.0
    requires AngleSurface(d, nt, table, dt, window, mode).Fail?
    ensures exists i :: 0 <= i < |table| &&
                        AngleTrace(d, nt, table[i], dt, window, mode) == Fail(AngleSurface(d, nt, table, dt, window, mode).err) &&
                        (forall j :: 0 <= j < i ==> AngleTrace(d, nt, table[j], dt, window, mode).Ok?)
  {
    GatherFirstFailure(Traces(d, nt, table, dt, window, mode));
  }

  /** scan_angles as a value: the coherence surface behind the two results, or the error raised. */
  function ScanSurface(d: seq<seq<real>>, nt: nat, table: seq<seq<real>>, tableChannels: nat,
                       dt: real, window: nat, mode: string): (r: Outcome<seq<seq<real>>>)
    requires IsGrid(d, nt) && IsGrid(table, tableChannels) && dt > 0.0
    ensures r.Ok? ==> |r.value| == |table| && IsGrid(r.value, nt) && (|table| > 0 || nt == 0)
  {
    if |d| != tableChannels then Fail(TableMismatch)
    else match AngleSurface(d, nt, table, dt, window, mode)
      case Fail(e) => Fail(e)
      case Ok(surface) => if |table| == 0 && nt > 0 then Fail(EmptyArgmax) else Ok(surface)
  }

  /** scan_angles: checks the channel counts, fills the coherence surface row by row, then
      reduces each sample's column to its first largest entry. */
  method ScanAngles(data: array2<real>, table: array2<real>, windowSeconds: real, dt: real, mode: string)
    returns (r: Outcome<(array<nat>, array<real>)>)
    requires windowSeconds >= 0.0 && dt > 0.0
    ensures var spec := ScanSurface(Cells(data), data.Length1, Cells(table), table.Length1, dt,
                                    SampleWindow(windowSeconds, dt), mode);
      (r.Fail? <==> spec.Fail?) && (r.Fail? ==> r.err == spec.err) &&
      (r.Ok? ==> fresh(r.value.0) && fresh(r.value.1) &&
                 r.value.0.Length == r.value.1.Length == data.Length1 &&
                 forall t :: 0 <= t < data.Length1 ==>
                   (IsFirstMax(Column(spec.value, t), r.value.0[t]) && r.value.1[t] == spec.value[r.value.0[t]][t]))
  {
    var nt, nang := data.Length1, table.Length0;
    if data.Length0 != table.Length1 {
      return Fail(TableMismatch);
    }
    var window := SampleWindow(windowSeconds, dt);
    var semb := new real[nang, nt]((_, _) => 0.0);
    var err := FillSurface(semb, data, table, dt, window, mode);
    ghost var spec := ScanSurface(Cells(data), nt, Cells(table), table.Length1, dt, window, mode);
    if err.Some? {
      assert spec == Fail(err.value);
      return Fail(err.value);
    }
    if nang == 0 && nt > 0 {
      return Fail(EmptyArgmax);
    }
    assert spec == Ok(Cells(semb));
    var inds, coh := ReduceColumns(semb);
    return Ok((inds, coh));
  }

  /** The second loop of scan_angles: the first largest row of every column, and its value. */
  method ReduceColumns(semb: array2<real>) returns (inds: array<nat>, coh: array<real>)
    requires semb.Length0 > 0 || semb.Length1 == 0
    ensures fresh(inds) && fresh(coh) && inds.Length == coh.Length == semb.Length1
    ensures forall t :: 0 <= t < semb.Length1 ==>
      IsFirstMax(Column(Cells(semb), t), inds[t]) && coh[t] == Cells(semb)[inds[t]][t]
  {
    var nt := semb.Length1;
    inds := new nat[nt];
    coh := new real[nt];
    for t := 0 to nt
      invariant forall u :: 0 <= u < t ==> IsFirstMax(Column(Cells(semb), u), inds[u]) && coh[u] == semb[inds[u], u]
    {
      var k := ArgMaxColumn(semb, t);
      inds[t] := k;
      coh[t] := semb[k, t];
    }
  }

  /** The first loop of scan_angles: row i of the surface is the coherence of the block shifted
      by delay row i; the first failing row stops the fill and its error is returned. */
  method FillSurface(semb: array2<real>, data: array2<real>, table: array2<real>, dt: real, window: nat, mode: string)
    returns (err: Option<Error>)
    requires semb != data && semb != table
    requires semb.Length0 == table.Length0 && semb.Length1 == data.Length1
    requires table.Length1 == data.Length0 && dt > 0.0
    modifies semb
    ensures var spec := AngleSurface(Cells(data), data.Length1, Cells(table), dt, window, mode);
      (err.Some? <==> spec.Fail?) && (err.Some? ==> err.value == spec.err) &&
      (err.None? ==> Cells(semb) == spec.value)
  {
    var nt, nang := data.Length1, table.Length0;
    ghost var d, rows := Cells(data), Cells(table);
    ghost var ts := Traces(d, nt, rows, dt, window, mode);
    ghost var surf: seq<seq<real>> := [];
    for i := 0 to nang
      invariant Cells(data) == d && Cells(table) == rows
      invariant |surf| == i
      invariant Gather(ts[..i]) == Ok(surf)
      invariant forall j :: 0 <= j < i ==> Row(semb, j) == surf[j]
    {
      var trace := ShiftAndScore(data, Row(table, i), dt, window, mode);
      if trace.Fail? {
        GatherStops(ts, i);
        return Some(trace.err);
      }
      GatherStep(ts, i, surf);
      CopyRow(semb, i, trace.value);
      surf := surf + [trace.value[..]];
    }
    assert ts[..nang] == ts;
    assert Cells(semb) == surf;
    return None;
  }

  /** calc_coherence(apply_moveout(data, delays, dt), window, mode) for one delay row. */
  method ShiftAndScore(data: array2<real>, delays: seq<real>, dt: real, window: nat, mode: string)
    returns (r: Outcome<array<real>>)
    requires dt > 0.0
    ensures var spec := AngleTrace(Cells(data), data.Length1, delays, dt, window, mode);
      (r.Fail? <==> spec.Fail?) && (r.Fail? ==> r.err == spec.err) &&
      (r.Ok? ==> fresh(r.value) && r.value[..] == spec.value)
  {
    var moved := ApplyMoveout(data, delays, dt);
    if moved.Fail? {
      return Fail(moved.err);
    }
    r := CalcCoherence(moved.value, window, mode);
  }

  /** semb_res[i, :] = trace. */
  method CopyRow(semb: array2<real>, i: nat, trace: array<real>)
    requires i < semb.Length0 && trace.Length == semb.Length1
    modifies semb
    ensures Row(semb, i) == trace[..]
    ensures forall j :: 0 <= j < semb.Length0 && j != i ==> Row(semb, j) == old(Row(semb, j))
  {
    for t := 0 to semb.Length1
      invariant forall u :: 0 <= u < t ==> semb[i, u] == trace[u]
      invariant forall j, u :: 0 <= j < semb.Length0 && j != i && 0 <= u < semb.Length1 ==> semb[j, u] == old(semb[j, u])
    {
      semb[i, t] := trace[t];
    }
  }

  /** np.argmax(semb_res[:, t]): the first row holding the largest value of column t. */
  method ArgMaxColumn(semb: array2<real>, t: nat) returns (k: nat)
    requires semb.Length0 > 0 && t < semb.Length1
    ensures IsFirstMax(Column(Cells(semb), t), k)
  {
    k := 0;
    for i := 1 to semb.Length0
      invariant k < i
      invariant forall j :: 0 <= j < i ==> semb[j, t] <= semb[k, t]
      invariant forall j :: 0 <= j < k ==> semb[j, t] < semb[k, t]
    {
      if semb[i, t] > semb[k, t] {
        k := i;
      }
    }
  }

  /** The delays of a row are relative: adding one constant to the whole row, keeping it
      non-negative, leaves the coherence trace of the shifted block unchanged. */
  lemma DelayOffsetInvariance(d: seq<seq<real>>, nt: nat, delays: seq<real>, c: real, dt: real, window: nat, mode: string)
    requires IsGrid(d, nt) && dt > 0.0
    requires forall i :: 0 <= i < |delays| ==> delays[i] >= 0.0 && delays[i] + c >= 0.0
    ensures AngleTrace(d, nt, Offset(delays, c), dt, window, mode) == AngleTrace(d, nt, delays, dt, window, mode)
  {
    if |delays| == |d| && |d| > 0 {
      ShiftInvariance(d, nt, delays, c, dt);
    }
  }

  /** At most one index is the first maximum, so the reduction is determined by the column. */
  lemma FirstMaxUnique(col: seq<real>, k: nat)
    requires IsFirstMax(col, k)
    ensures forall j: nat :: IsFirstMax(col, j) <==> j == k
  {
    forall j: nat | j < |col| && j != k
      ensures !IsFirstMax(col, j)
    {
      if j < k {
        assert col[j] < col[k];
      } else {
        assert col[j] <= col[k];
      }
    }
  }
}
