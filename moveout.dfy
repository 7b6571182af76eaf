/** The moveout shifter (apply_moveout): shifts every channel of a [channels, samples] block
    back in time by its relative moveout, interpolating linearly between adjacent samples. */
module MoveoutShifter {
  import opened Outcomes
  import opened Grids
  import opened Sums

  /** np.amin: the least entry of a non-empty vector. */
  function MinOf(s: seq<real>): (m: real)
    requires |s| > 0
    ensures m in s
    ensures forall i :: 0 <= i < |s| ==> m <= s[i]
  {
    if |s| == 1 then s[0]
    else
      var rest := MinOf(s[1..]);
      if s[0] <= rest then s[0] else rest
  }

  /** The moveout vector made relative to its least entry and expressed in samples. */
  function NormalisedShifts(moveout: seq<real>, dt: real): (s: seq<real>)
    requires |moveout| > 0 && dt > 0.0
    ensures |s| == |moveout|
    ensures forall ch :: 0 <= ch < |s| ==> s[ch] >= 0.0
  {
    var least := MinOf(moveout);
    seq(|moveout|, ch requires 0 <= ch < |moveout| => (moveout[ch] - least) / dt)
  }

  /** Python's normalisation of a slice bound i over a sequence of n items. */
  function SliceBound(i: int, n: nat): (j: nat)
    ensures j <= n
  {
    var k := if i < 0 then i + n else i;
    if k < 0 then 0 else if k > n then n else k
  }

  /** Number of items in the slice a[start:stop] of a sequence of n items. */
  function SliceLength(start: int, stop: int, n: nat): nat
  {
    var lo, hi := SliceBound(start, n), SliceBound(stop, n);
    if hi > lo then hi - lo else 0
  }

  /** The slice assignment of one channel, mov_data[ch, 0:nt-off-1] = ... data[ch, off:-1] ...,
      has sides of different lengths (numpy then raises). */
  predicate SliceMismatch(off: int, nt: nat): (mismatch: bool)
    ensures 0 <= off ==> (mismatch <==> nt <= off <= 2 * nt - 2)
  {
    SliceLength(0, nt - off - 1, nt) != SliceLength(off, -1, nt)
  }

  /** Output sample t of a channel with normalised shift s: linear interpolation between input
      samples t + off and t + off + 1, where off is the whole and f the fractional part of s;
      samples whose source runs past the end stay 0. A fractional part of 0 is a plain copy. */
  function Interpolate(row: seq<real>, s: real, t: nat): (x: real)
    requires s >= 0.0
    ensures s == s.Floor as real && t + s.Floor + 1 < |row| ==> x == row[t + s.Floor]
  {
    var off := s.Floor;
    var f := s - off as real;
    if t + off + 1 < |row| then (1.0 - f) * row[t + off] + f * row[t + off + 1] else 0.0
  }

  /** One channel shifted by s samples. */
  function ShiftedRow(row: seq<real>, s: real): (r: seq<real>)
    requires s >= 0.0
    ensures |r| == |row|
    ensures forall t :: 0 <= t < |row| && |row| <= t + s.Floor + 1 ==> r[t] == 0.0
  {
    seq(|row|, t requires 0 <= t < |row| => Interpolate(row, s, t))
  }

  /** The error apply_moveout raises for these inputs, if any, in the order it checks them. */
  function MoveoutError(nch: nat, nt: nat, moveout: seq<real>, dt: real): (e: Option<Error>)
    requires dt > 0.0
    ensures e.None? <==>
      |moveout| == nch > 0 && (forall ch :: 0 <= ch < nch ==> moveout[ch] >= 0.0) &&
      forall ch :: 0 <= ch < nch ==>
        var off := NormalisedShifts(moveout, dt)[ch].Floor; off < nt || 2 * nt - 2 < off
  {
    if |moveout| != nch then Some(ChannelMismatch)
    else if exists ch :: 0 <= ch < |moveout| && moveout[ch] < 0.0 then Some(NegativeShift)
    else if |moveout| == 0 then Some(EmptyReduction)
    else if exists ch :: 0 <= ch < |moveout| && SliceMismatch(NormalisedShifts(moveout, dt)[ch].Floor, nt)
    then Some(SliceShapeMismatch)
    else None
  }

  /** The shifted block, channel by channel. */
  function Moved(d: seq<seq<real>>, nt: nat, moveout: seq<real>, dt: real): (r: seq<seq<real>>)
    requires IsGrid(d, nt) && |moveout| == |d| > 0 && dt > 0.0
    ensures |r| == |d| && IsGrid(r, nt)
  {
    var s := NormalisedShifts(moveout, dt);
    seq(|d|, ch requires 0 <= ch < |d| => ShiftedRow(d[ch], s[ch]))
  }

  /** apply_moveout: validates the moveout vector, then fills a zeroed output buffer channel
      by channel. */
  method ApplyMoveout(data: array2<real>, moveout: seq<real>, dt: real) returns (r: Outcome<array2<real>>)
    requires dt > 0.0
    ensures r.Fail? <==> MoveoutError(data.Length0, data.Length1, moveout, dt).Some?
    ensures r.Fail? ==> r.err == MoveoutError(data.Length0, data.Length1, moveout, dt).value
    ensures r.Ok? ==> fresh(r.value)
    ensures r.Ok? ==> r.value.Length0 == data.Length0 && r.value.Length1 == data.Length1
    ensures r.Ok? ==> Cells(r.value) == Moved(Cells(data), data.Length1, moveout, dt)
  {
    var nch, nt := data.Length0, data.Length1;
    if |moveout| != nch {
      return Fail(ChannelMismatch);
    }
    for ch := 0 to nch
      invariant forall c :: 0 <= c < ch ==> moveout[c] >= 0.0
    {
      if moveout[ch] < 0.0 {
        return Fail(NegativeShift);
      }
    }
    if nch == 0 {
      return Fail(EmptyReduction);
    }
    var shifts := NormalisedShifts(moveout, dt);
    var out := new real[nch, nt]((_, _) => 0.0);
    for ch := 0 to nch
      invariant forall c :: 0 <= c < ch ==> !SliceMismatch(shifts[c].Floor, nt)
      invariant forall c :: 0 <= c < ch ==> Row(out, c) == ShiftedRow(Row(data, c), shifts[c])
      invariant forall c, t :: ch <= c < nch && 0 <= t < nt ==> out[c, t] == 0.0
    {
      if SliceMismatch(shifts[ch].Floor, nt) {
        return Fail(SliceShapeMismatch);
      }
      ShiftChannel(out, data, ch, shifts[ch]);
    }
    assert forall c :: 0 <= c < nch ==> Cells(out)[c] == Moved(Cells(data), nt, moveout, dt)[c];
    return Ok(out);
  }

  /** One iteration of the channel loop: row ch of out, zero on entry, receives channel ch of
      data shifted by s samples. */
  method ShiftChannel(out: array2<real>, data: array2<real>, ch: nat, s: real)
    requires out != data && out.Length0 == data.Length0 && out.Length1 == data.Length1
    requires ch < data.Length0 && s >= 0.0
    requires forall t :: 0 <= t < out.Length1 ==> out[ch, t] == 0.0
    modifies out
    ensures forall c, t :: 0 <= c < out.Length0 && c != ch && 0 <= t < out.Length1 ==> out[c, t] == old(out[c, t])
    ensures Row(out, ch) == ShiftedRow(Row(data, ch), s)
  {
    var nt := data.Length1;
    var row := Row(data, ch);
    var off := s.Floor;
    var f := s - off as real;
    forall t | 0 <= t && t + off + 1 < nt {
      out[ch, t] := (1.0 - f) * row[t + off] + f * row[t + off + 1];
    }
    SamplesMakeShiftedRow(Row(out, ch), row, s, off, f);
  }

  /** A row that holds the blend of input samples t + off and t + off + 1 wherever both exist,
      and 0 elsewhere, is the shifted row. */
  lemma SamplesMakeShiftedRow(o: seq<real>, row: seq<real>, s: real, off: int, f: real)
    requires s >= 0.0 && |o| == |row| && off == s.Floor && f == s - off as real
    requires forall t :: 0 <= t < |o| && t + off + 1 < |row| ==> o[t] == (1.0 - f) * row[t + off] + f * row[t + off + 1]
    requires forall t :: 0 <= t < |o| && |row| <= t + off + 1 ==> o[t] == 0.0
    ensures o == ShiftedRow(row, s)
  {
    forall t | 0 <= t < |o|
      ensures o[t] == ShiftedRow(row, s)[t]
    {
      if t + off + 1 < |row| {
        InterpolateInside(row, s, t, row[t + off], row[t + off + 1]);
      } else {
        InterpolatePastEnd(row, s, t);
      }
    }
  }

  /** Inside the trace, output sample t blends input samples t + off and t + off + 1. */
  lemma InterpolateInside(row: seq<real>, s: real, t: nat, a: real, b: real)
    requires s >= 0.0 && t + s.Floor + 1 < |row|
    requires a == row[t + s.Floor] && b == row[t + s.Floor + 1]
    ensures ShiftedRow(row, s)[t] == (1.0 - (s - s.Floor as real)) * a + (s - s.Floor as real) * b
  {
  }

  /** Output samples whose source runs past the end are 0. */
  lemma InterpolatePastEnd(row: seq<real>, s: real, t: nat)
    requires s >= 0.0 && t < |row| && t + s.Floor + 1 >= |row|
    ensures ShiftedRow(row, s)[t] == 0.0
  {
  }

  /** Every entry of a vector raised by the same constant c. */
  function Offset(moveout: seq<real>, c: real): (r: seq<real>)
    ensures |r| == |moveout|
    ensures forall i :: 0 <= i < |r| ==> r[i] == moveout[i] + c
  {
    seq(|moveout|, i requires 0 <= i < |moveout| => moveout[i] + c)
  }

  lemma MinOfOffset(moveout: seq<real>, c: real)
    requires |moveout| > 0
    ensures MinOf(Offset(moveout, c)) == MinOf(moveout) + c
  {
    var raised, lo := Offset(moveout, c), MinOf(moveout);
    var i :| 0 <= i < |moveout| && moveout[i] == lo;
    var j :| 0 <= j < |raised| && raised[j] == MinOf(raised);
    assert MinOf(raised) <= raised[i];
    assert lo <= moveout[j];
  }

  /** Shifts are relative: raising every moveout by the same constant changes neither the
      output nor, while the entries stay non-negative, the outcome of the checks. */
  lemma ShiftInvariance(d: seq<seq<real>>, nt: nat, moveout: seq<real>, c: real, dt: real)
    requires IsGrid(d, nt) && |moveout| == |d| > 0 && dt > 0.0
    ensures NormalisedShifts(Offset(moveout, c), dt) == NormalisedShifts(moveout, dt)
    ensures Moved(d, nt, Offset(moveout, c), dt) == Moved(d, nt, moveout, dt)
    ensures (forall i :: 0 <= i < |moveout| ==> moveout[i] >= 0.0 && moveout[i] + c >= 0.0) ==>
              MoveoutError(|d|, nt, Offset(moveout, c), dt) == MoveoutError(|d|, nt, moveout, dt)
  {
    OffsetShifts(moveout, c, dt);
  }

  /** Raising every moveout by c leaves the normalised shifts as they are. */
  lemma OffsetShifts(moveout: seq<real>, c: real, dt: real)
    requires |moveout| > 0 && dt > 0.0
    ensures NormalisedShifts(Offset(moveout, c), dt) == NormalisedShifts(moveout, dt)
  {
    var a, b := NormalisedShifts(Offset(moveout, c), dt), NormalisedShifts(moveout, dt);
    forall ch | 0 <= ch < |moveout|
      ensures a[ch] == b[ch]
    {
      OffsetShift(moveout, c, dt, ch);
    }
  }

  lemma OffsetShift(moveout: seq<real>, c: real, dt: real, ch: nat)
    requires |moveout| > 0 && dt > 0.0 && ch < |moveout|
    ensures NormalisedShifts(Offset(moveout, c), dt)[ch] == NormalisedShifts(moveout, dt)[ch]
  {
    var raised := Offset(moveout, c);
    MinOfOffset(moveout, c);
    OffsetCancels(moveout[ch], MinOf(moveout), c, dt, raised[ch], MinOf(raised));
  }

  lemma OffsetCancels(x: real, lo: real, c: real, dt: real, x': real, lo': real)
    requires dt > 0.0 && x' == x + c && lo' == lo + c
    ensures (x' - lo') / dt == (x - lo) / dt
  {
    assert x' - lo' == x - lo;
  }

  /** The channel with the least moveout is copied unchanged, except its last sample, which the
      slice 0:nt-1 never writes. */
  lemma LeastShiftedChannelCopied(d: seq<seq<real>>, nt: nat, moveout: seq<real>, dt: real, ch: nat)
    requires IsGrid(d, nt) && |moveout| == |d| > 0 && dt > 0.0
    requires ch < |d| && moveout[ch] == MinOf(moveout)
    ensures forall t :: 0 <= t < nt - 1 ==> Moved(d, nt, moveout, dt)[ch][t] == d[ch][t]
    ensures nt > 0 ==> Moved(d, nt, moveout, dt)[ch][nt - 1] == 0.0
  {
    assert NormalisedShifts(moveout, dt)[ch] == 0.0;
    assert (0.0).Floor == 0;
  }

  /** With all moveouts equal, every channel is its input with the last sample zeroed. */
  lemma EqualShiftsKeepInput(d: seq<seq<real>>, nt: nat, moveout: seq<real>, dt: real)
    requires IsGrid(d, nt) && |moveout| == |d| > 0 && dt > 0.0
    requires forall i :: 0 <= i < |moveout| ==> moveout[i] == moveout[0]
    ensures forall ch, t :: 0 <= ch < |d| && 0 <= t < nt - 1 ==> Moved(d, nt, moveout, dt)[ch][t] == d[ch][t]
    ensures forall ch :: 0 <= ch < |d| && nt > 0 ==> Moved(d, nt, moveout, dt)[ch][nt - 1] == 0.0
  {
    forall ch | 0 <= ch < |d|
      ensures forall t :: 0 <= t < nt - 1 ==> Moved(d, nt, moveout, dt)[ch][t] == d[ch][t]
      ensures nt > 0 ==> Moved(d, nt, moveout, dt)[ch][nt - 1] == 0.0
    {
      var lo := MinOf(moveout);
      var i :| 0 <= i < |moveout| && moveout[i] == lo;
      LeastShiftedChannelCopied(d, nt, moveout, dt, ch);
    }
  }

  /** A whole-sample shift k is plain slicing: out[t] = in[t + k] while that exists, then 0. */
  lemma WholeSampleShiftIsSlice(row: seq<real>, k: nat, t: nat)
    requires t < |row|
    ensures ShiftedRow(row, k as real)[t] == if t + k + 1 < |row| then row[t + k] else 0.0
  {
    assert (k as real).Floor == k;
  }

  /** A block whose normalised shifts are whole numbers k[ch] is shifted by plain slicing:
      channel ch reads input sample t + k[ch] while t + k[ch] + 1 < nt, and is 0 after. */
  lemma WholeSampleShiftsAreSlices(d: seq<seq<real>>, nt: nat, moveout: seq<real>, dt: real, k: seq<nat>)
    requires IsGrid(d, nt) && |moveout| == |d| > 0 && dt > 0.0 && |k| == |d|
    requires forall ch :: 0 <= ch < |d| ==> NormalisedShifts(moveout, dt)[ch] == k[ch] as real
    ensures forall ch, t :: 0 <= ch < |d| && 0 <= t < nt ==>
      Moved(d, nt, moveout, dt)[ch][t] == if t + k[ch] + 1 < nt then d[ch][t + k[ch]] else 0.0
  {
    forall ch, t | 0 <= ch < |d| && 0 <= t < nt
      ensures Moved(d, nt, moveout, dt)[ch][t] == if t + k[ch] + 1 < nt then d[ch][t + k[ch]] else 0.0
    {
      WholeSampleShiftIsSlice(d[ch], k[ch], t);
    }
  }

  /** An interpolated sample lies between the two input samples it is drawn from. */
  lemma InterpolateBetween(row: seq<real>, s: real, t: nat)
    requires s >= 0.0 && t + s.Floor + 1 < |row|
    ensures var a, b := row[t + s.Floor], row[t + s.Floor + 1];
      (a <= b ==> a <= Interpolate(row, s, t) <= b) && (b <= a ==> b <= Interpolate(row, s, t) <= a)
  {
    var a, b, f := row[t + s.Floor], row[t + s.Floor + 1], s - s.Floor as real;
    ConvexCombination(a, b, f);
  }

  lemma ConvexCombination(a: real, b: real, f: real)
    requires 0.0 <= f < 1.0
    ensures a <= b ==> a <= (1.0 - f) * a + f * b <= b
    ensures b <= a ==> b <= (1.0 - f) * a + f * b <= a
  {
    var g := b - a;
    assert (1.0 - f) * a + f * b == a + f * g;
    assert (1.0 - f) * g == g - f * g;
    if a <= b {
      ProductNonNegative(f, g);
      ProductNonNegative(1.0 - f, g);
    } else {
      ProductNonNegative(f, -g);
      ProductNonNegative(1.0 - f, -g);
    }
  }

  /** angle_scan.py:79-80 as written: a fractional part of 0 is replaced by 1. */
  function InterpolateAsWritten(row: seq<real>, s: real, t: nat): (x: real)
    requires s >= 0.0
    ensures s != s.Floor as real ==> x == Interpolate(row, s, t)
  {
    var off := s.Floor;
    var f := if s - off as real == 0.0 then 1.0 else s - off as real;
    if t + off + 1 < |row| then (1.0 - f) * row[t + off] + f * row[t + off + 1] else 0.0
  }

  /** As written, a whole-sample shift k reads input sample t + k + 1, one sample late. */
  lemma AsWrittenWholeShiftReadsOneLate(row: seq<real>, k: nat, t: nat)
    requires t + k + 1 < |row|
    ensures InterpolateAsWritten(row, k as real, t) == row[t + k + 1]
  {
    assert (k as real).Floor == k;
  }

  /** As written, the least-shifted channel is not copied: [0, 1] with shift 0 gives 1 at t = 0
      where the documented convention gives 0. */
  lemma AsWrittenMovesLeastShiftedChannel()
    ensures InterpolateAsWritten([0.0, 1.0], 0.0, 0) == 1.0
    ensures Interpolate([0.0, 1.0], 0.0, 0) == 0.0
  {
    assert (0.0).Floor == 0;
  }
}
