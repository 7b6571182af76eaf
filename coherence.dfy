/** The coherence scorer (calc_coherence): windowed semblance, channel mean, or their product,
    at every sample of a [channels, samples] block. */
module CoherenceScorer {
  import opened Outcomes
  import opened Sums
  import opened Grids

  /** Stack S[t]: the sum over channels at sample t (np.sum(data, axis=0)). A single channel
      is its own stack. */
  function Stacks(d: seq<seq<real>>, nt: nat): (stack: seq<real>)
    requires IsGrid(d, nt)
    ensures |stack| == nt
    ensures |d| == 1 ==> stack == d[0]
  {
    SingleChannelColumns(d, nt);
    seq(nt, t requires 0 <= t < nt => Sum(Column(d, t)))
  }

  /** Energy Q[t]: the sum over channels of the squared sample at t. It is never negative, and
      a single channel's energy is its own square. */
  function Energies(d: seq<seq<real>>, nt: nat): (energy: seq<real>)
    requires IsGrid(d, nt)
    ensures |energy| == nt
    ensures forall t :: 0 <= t < nt ==> energy[t] >= 0.0
    ensures |d| == 1 ==> forall t :: 0 <= t < nt ==> energy[t] == d[0][t] * d[0][t]
  {
    ColumnSquaresNonNegative(d, nt);
    SingleChannelColumns(d, nt);
    seq(nt, t requires 0 <= t < nt => SumSq(Column(d, t)))
  }

  lemma ColumnSquaresNonNegative(d: seq<seq<real>>, nt: nat)
    requires IsGrid(d, nt)
    ensures forall t :: 0 <= t < nt ==> SumSq(Column(d, t)) >= 0.0
  {
    forall t | 0 <= t < nt
      ensures SumSq(Column(d, t)) >= 0.0
    {
      SumSqNonNegative(Column(d, t));
    }
  }

  lemma SingleChannelColumns(d: seq<seq<real>>, nt: nat)
    requires IsGrid(d, nt)
    ensures |d| == 1 ==> forall t :: 0 <= t < nt ==>
      Sum(Column(d, t)) == d[0][t] && SumSq(Column(d, t)) == d[0][t] * d[0][t]
  {
    if |d| == 1 {
      forall t | 0 <= t < nt
        ensures Sum(Column(d, t)) == d[0][t] && SumSq(Column(d, t)) == d[0][t] * d[0][t]
      {
        assert Column(d, t)[..0] == [];
      }
    }
  }

  /** Semblance of the window of half width h centred on w, or 0 where the window does not fit
      inside the trace or the energy at the centre sample is 0. */
  function WindowSemblance(stack: seq<real>, energy: seq<real>, nchan: nat, h: nat, w: int): (s: real)
    requires |stack| == |energy| && nchan > 0
    requires forall k :: 0 <= k < |energy| ==> energy[k] >= 0.0
    ensures s >= 0.0
    ensures s != 0.0 ==> h <= w && w + h < |stack| && energy[w] != 0.0
  {
    if h <= w && w + h < |stack| then
      if energy[w] == 0.0 then 0.0
      else
        SumPositive(energy[w - h .. w + h + 1], h);
        SumSqNonNegative(stack[w - h .. w + h + 1]);
        QuotientNonNegative(SumSq(stack[w - h .. w + h + 1]), Sum(energy[w - h .. w + h + 1]), nchan as real);
        SumSq(stack[w - h .. w + h + 1]) / Sum(energy[w - h .. w + h + 1]) / nchan as real
    else 0.0
  }

  /** The semblance of the window centred on every sample (0 where it does not fit). */
  function Windows(stack: seq<real>, energy: seq<real>, nchan: nat, h: nat): (ws: seq<real>)
    requires |stack| == |energy| && nchan > 0
    requires forall k :: 0 <= k < |energy| ==> energy[k] >= 0.0
    ensures |ws| == |stack|
    ensures forall t :: 0 <= t < |stack| ==> ws[t] >= 0.0
    ensures forall t :: 0 <= t < |stack| && (t < h || |stack| <= t + h) ==> ws[t] == 0.0
  {
    seq(|stack|, t requires 0 <= t < |stack| => WindowSemblance(stack, energy, nchan, h, t))
  }

  /** The two edge assignments in order: samples [0, h) take sample h, then samples [nt-h, nt)
      take sample nt-h-1 as it stands after the first assignment. */
  function EdgesReplicated(s: seq<real>, h: nat): (r: seq<real>)
    requires h < |s|
    ensures |r| == |s|
    ensures forall t :: h <= t < |s| - h ==> r[t] == s[t]
    ensures h + h < |s| ==>
      (forall t :: 0 <= t < h ==> r[t] == s[h]) && (forall t :: |s| - h <= t < |s| ==> r[t] == s[|s| - h - 1])
  {
    var nt := |s|;
    var right := if nt - h - 1 < h then s[h] else s[nt - h - 1];
    seq(nt, t requires 0 <= t < nt => if t >= nt - h then right else if t < h then s[h] else s[t])
  }

  /** Edge replication invents no value: every sample is one of the samples from h on. */
  lemma EdgesKeepValues(s: seq<real>, h: nat)
    requires h < |s|
    ensures forall t :: 0 <= t < |s| ==> EdgesReplicated(s, h)[t] in s[h..]
  {
    var r := EdgesReplicated(s, h);
    forall t | 0 <= t < |s|
      ensures r[t] in s[h..]
    {
      var u := if t >= |s| - h then (if |s| - h - 1 < h then h else |s| - h - 1) else if t < h then h else t;
      assert r[t] == s[h..][u - h];
    }
  }

  /** The semblance trace: every window's semblance, with both edges replicated. */
  function SemblanceTrace(stack: seq<real>, energy: seq<real>, nchan: nat, h: nat): (semb: seq<real>)
    requires |stack| == |energy| && nchan > 0 && h < |stack|
    requires forall k :: 0 <= k < |energy| ==> energy[k] >= 0.0
    ensures |semb| == |stack|
  {
    EdgesReplicated(Windows(stack, energy, nchan, h), h)
  }

  /** The mode dispatch of calc_coherence over a finished semblance trace and the stack: the
      semblance itself, the channel mean, or their product; any other mode is an error. */
  function SelectedTrace(semb: seq<real>, stack: seq<real>, n: real, mode: string): (r: Outcome<seq<real>>)
    requires |semb| == |stack| && n > 0.0
    ensures r.Fail? <==> mode != "semb" && mode != "stack" && mode != "sembstack"
    ensures r.Fail? ==> r.err == UnknownMode
    ensures r.Ok? ==> |r.value| == |semb|
  {
    var nt := |semb|;
    if mode == "semb" then Ok(semb)
    else if mode == "stack" then Ok(seq(nt, t requires 0 <= t < nt => stack[t] / n))
    else if mode == "sembstack" then Ok(seq(nt, t requires 0 <= t < nt => semb[t] * Abs(stack[t]) / n))
    else Fail(UnknownMode)
  }

  /** calc_coherence as a value: the trace for the given mode, or the error it raises. */
  function CoherenceTrace(d: seq<seq<real>>, nt: nat, window: nat, mode: string): (r: Outcome<seq<real>>)
    requires IsGrid(d, nt) && |d| > 0
    ensures r.Ok? ==> |r.value| == nt
  {
    var h := window / 2;
    if nt <= h then Fail(WindowBeyondTrace)
    else
      var stack, energy := Stacks(d, nt), Energies(d, nt);
      SelectedTrace(SemblanceTrace(stack, energy, |d|, h), stack, |d| as real, mode)
  }

  /** calc_coherence: fills the semblance buffer over the interior, overwrites its two edge
      slices, then dispatches on the mode. */
  method CalcCoherence(data: array2<real>, window: nat, mode: string) returns (r: Outcome<array<real>>)
    requires data.Length0 > 0
    ensures var spec := CoherenceTrace(Cells(data), data.Length1, window, mode);
      (r.Fail? <==> spec.Fail?) && (r.Fail? ==> r.err == spec.err) &&
      (r.Ok? ==> fresh(r.value) && r.value[..] == spec.value)
  {
    var nchan, nt := data.Length0, data.Length1;
    var d := Cells(data);
    var h := window / 2;
    var stack := Stacks(d, nt);
    var energy := Energies(d, nt);
    var semb := new real[nt](_ => 0.0);
    FillInterior(semb, stack, energy, nchan, h);
    if nt <= h {
      return Fail(WindowBeyondTrace);
    }
    assert semb[..] == Windows(stack, energy, nchan, h);
    ReplicateEdges(semb, h);
    r := SelectMode(semb, stack, nchan as real, mode);
  }

  /** The if/elif chain on the mode: 'semb' hands back the semblance buffer itself, the other
      two modes a new buffer. */
  method SelectMode(semb: array<real>, stack: seq<real>, n: real, mode: string) returns (r: Outcome<array<real>>)
    requires semb.Length == |stack| && n > 0.0
    ensures var spec := SelectedTrace(semb[..], stack, n, mode);
      (r.Fail? <==> spec.Fail?) && (r.Fail? ==> r.err == spec.err) &&
      (r.Ok? ==> (r.value == semb || fresh(r.value)) && r.value[..] == spec.value)
  {
    var nt := semb.Length;
    var trace := semb[..];
    if mode == "semb" {
      return Ok(semb);
    } else if mode == "stack" {
      var out := new real[nt](t requires 0 <= t < nt => stack[t] / n);
      return Ok(out);
    } else if mode == "sembstack" {
      var out := new real[nt](t requires 0 <= t < nt => trace[t] * Abs(stack[t]) / n);
      return Ok(out);
    }
    return Fail(UnknownMode);
  }

  /** The loop over w in [h, nt - h): the semblance of every window that fits. */
  method FillInterior(semb: array<real>, stack: seq<real>, energy: seq<real>, nchan: nat, h: nat)
    requires semb.Length == |stack| == |energy| && nchan > 0
    requires forall k :: 0 <= k < |energy| ==> energy[k] >= 0.0
    requires forall t :: 0 <= t < semb.Length ==> semb[t] == 0.0
    modifies semb
    ensures forall t :: 0 <= t < semb.Length ==> semb[t] == WindowSemblance(stack, energy, nchan, h, t)
  {
    var nt := semb.Length;
    var w := h;
    while w + h < nt
      invariant h <= w && (w + h <= nt || w == h)
      invariant forall t :: 0 <= t < nt ==>
        semb[t] == if h <= t < w then WindowSemblance(stack, energy, nchan, h, t) else 0.0
    {
      if energy[w] == 0.0 {
        semb[w] := 0.0;
      } else {
        SumPositive(energy[w - h .. w + h + 1], h);
        semb[w] := SumSq(stack[w - h .. w + h + 1]) / Sum(energy[w - h .. w + h + 1]) / nchan as real;
      }
      w := w + 1;
    }
  }

  /** semblance_res[0:h] = semblance_res[h]; then semblance_res[nt-h:nt] = semblance_res[nt-h-1]. */
  method ReplicateEdges(semb: array<real>, h: nat)
    requires h < semb.Length
    modifies semb
    ensures semb[..] == EdgesReplicated(old(semb[..]), h)
  {
    var nt := semb.Length;
    ghost var s := semb[..];
    var left := semb[h];
    for t := 0 to h
      invariant forall u :: 0 <= u < t ==> semb[u] == left
      invariant forall u :: t <= u < nt ==> semb[u] == s[u]
    {
      semb[t] := left;
    }
    var right := semb[nt - h - 1];
    for t := nt - h to nt
      invariant forall u :: 0 <= u < nt - h ==> semb[u] == if u < h then left else s[u]
      invariant forall u :: nt - h <= u < t ==> semb[u] == right
    {
      semb[t] := right;
    }
  }

  /** Cauchy–Schwarz over the channels: S[t]^2 <= nchan * Q[t] at every sample. */
  lemma StackSquareBound(d: seq<seq<real>>, nt: nat)
    requires IsGrid(d, nt)
    ensures forall t :: 0 <= t < nt ==>
      Stacks(d, nt)[t] * Stacks(d, nt)[t] <= |d| as real * Energies(d, nt)[t]
  {
    forall t | 0 <= t < nt
      ensures Stacks(d, nt)[t] * Stacks(d, nt)[t] <= |d| as real * Energies(d, nt)[t]
    {
      SquareOfSumBound(Column(d, t));
    }
  }

  /** Any window whose stack is dominated by its energy has semblance in [0, 1]. */
  lemma WindowSemblanceInUnitInterval(stack: seq<real>, energy: seq<real>, nchan: nat, h: nat, w: int)
    requires |stack| == |energy| && nchan > 0
    requires forall k :: 0 <= k < |energy| ==> energy[k] >= 0.0
    requires forall k :: 0 <= k < |stack| ==> stack[k] * stack[k] <= nchan as real * energy[k]
    ensures 0.0 <= WindowSemblance(stack, energy, nchan, h, w) <= 1.0
  {
    if h <= w && w + h < |stack| && energy[w] != 0.0 {
      var ss, es := stack[w - h .. w + h + 1], energy[w - h .. w + h + 1];
      SumPositive(es, h);
      DominatedRatio(ss, es, nchan as real);
    }
  }

  /** A window whose squared stack is dominated term by term by n times its energy has ratio
      SumSq(ss) / Sum(es) / n in [0, 1]. */
  lemma DominatedRatio(ss: seq<real>, es: seq<real>, n: real)
    requires |ss| == |es| && n > 0.0 && Sum(es) > 0.0
    requires forall k :: 0 <= k < |ss| ==> ss[k] * ss[k] <= n * es[k]
    ensures 0.0 <= SumSq(ss) / Sum(es) / n <= 1.0
  {
    SumSqDominated(ss, es, n);
    SumSqNonNegative(ss);
    RatioAtMostOne(SumSq(ss), Sum(es), n);
  }

  /** A semblance trace built from a dominated stack lies in [0, 1] at every sample. */
  lemma SemblanceTraceInUnitInterval(stack: seq<real>, energy: seq<real>, nchan: nat, h: nat)
    requires |stack| == |energy| && nchan > 0 && h < |stack|
    requires forall k :: 0 <= k < |energy| ==> energy[k] >= 0.0
    requires forall k :: 0 <= k < |stack| ==> stack[k] * stack[k] <= nchan as real * energy[k]
    ensures forall t :: 0 <= t < |stack| ==> 0.0 <= SemblanceTrace(stack, energy, nchan, h)[t] <= 1.0
  {
    forall w: int
      ensures 0.0 <= WindowSemblance(stack, energy, nchan, h, w) <= 1.0
    {
      WindowSemblanceInUnitInterval(stack, energy, nchan, h, w);
    }
  }

  /** The 'semb' trace is defined whenever the half window is shorter than the trace, and
      every sample of it lies in [0, 1]. */
  lemma SemblanceInUnitInterval(d: seq<seq<real>>, nt: nat, window: nat)
    requires IsGrid(d, nt) && |d| > 0 && window / 2 < nt
    ensures CoherenceTrace(d, nt, window, "semb").Ok?
    ensures forall t :: 0 <= t < nt ==> 0.0 <= CoherenceTrace(d, nt, window, "semb").value[t] <= 1.0
  {
    var h, stack, energy := window / 2, Stacks(d, nt), Energies(d, nt);
    StackSquareBound(d, nt);
    SemblanceTraceInUnitInterval(stack, energy, |d|, h);
  }

  /** The 'sembstack' trace is never negative. */
  lemma SembStackNonNegative(d: seq<seq<real>>, nt: nat, window: nat)
    requires IsGrid(d, nt) && |d| > 0 && window / 2 < nt
    ensures CoherenceTrace(d, nt, window, "sembstack").Ok?
    ensures forall t :: 0 <= t < nt ==> CoherenceTrace(d, nt, window, "sembstack").value[t] >= 0.0
  {
    SemblanceInUnitInterval(d, nt, window);
    var semb := CoherenceTrace(d, nt, window, "semb").value;
    var stack := Stacks(d, nt);
    var r := CoherenceTrace(d, nt, window, "sembstack").value;
    assert r == seq(nt, t requires 0 <= t < nt => semb[t] * Abs(stack[t]) / |d| as real);
    WeightedMagnitudesNonNegative(semb, stack, |d| as real, r);
  }

  /** w[t] * |s[t]| / n is never negative when the weights are not. */
  lemma WeightedMagnitudesNonNegative(w: seq<real>, s: seq<real>, n: real, r: seq<real>)
    requires |w| == |s| && n > 0.0 && forall t :: 0 <= t < |w| ==> w[t] >= 0.0
    requires r == seq(|w|, t requires 0 <= t < |w| => w[t] * Abs(s[t]) / n)
    ensures forall t :: 0 <= t < |r| ==> r[t] >= 0.0
  {
    forall t | 0 <= t < |w|
      ensures r[t] >= 0.0
    {
      ProductNonNegative(w[t], Abs(s[t]));
    }
  }

  /** Exactly the unknown mode strings and a half window at least as long as the trace fail. */
  lemma CoherenceFailures(d: seq<seq<real>>, nt: nat, window: nat, mode: string)
    requires IsGrid(d, nt) && |d| > 0
    ensures CoherenceTrace(d, nt, window, mode).Fail? <==>
      nt <= window / 2 || (mode != "semb" && mode != "stack" && mode != "sembstack")
    ensures CoherenceTrace(d, nt, window, mode).Fail? ==>
      CoherenceTrace(d, nt, window, mode).err == (if nt <= window / 2 then WindowBeyondTrace else UnknownMode)
  {
  }

  /** Identical channels x: the stack is nchan * x and the energy nchan * x^2, sample by sample. */
  lemma IdenticalChannelSums(d: seq<seq<real>>, nt: nat)
    requires IsGrid(d, nt) && |d| > 0
    requires forall c :: 0 <= c < |d| ==> d[c] == d[0]
    ensures Stacks(d, nt) == Scaled(d[0], |d| as real)
    ensures Energies(d, nt) == ScaledSquares(d[0], |d| as real)
  {
    forall t | 0 <= t < nt
      ensures Stacks(d, nt)[t] == Scaled(d[0], |d| as real)[t]
      ensures Energies(d, nt)[t] == ScaledSquares(d[0], |d| as real)[t]
    {
      SumConstant(Column(d, t), d[0][t]);
    }
  }

  /** Identical channels give semblance 1 at every interior sample whose energy is non-zero
      (the centre-sample rule gives 0 at the others). */
  lemma IdenticalChannelsFullSemblance(d: seq<seq<real>>, nt: nat, h: nat, w: nat)
    requires IsGrid(d, nt) && |d| > 0
    requires forall c :: 0 <= c < |d| ==> d[c] == d[0]
    requires h <= w && w + h < nt
    ensures var energy := Energies(d, nt);
      (forall k :: 0 <= k < nt ==> energy[k] >= 0.0) &&
      WindowSemblance(Stacks(d, nt), energy, |d|, h, w) == if energy[w] == 0.0 then 0.0 else 1.0
  {
    IdenticalChannelSums(d, nt);
    ScaledWindowSemblance(d[0], Energies(d, nt), |d|, h, w);
  }

  /** The 'semb' trace of identical channels: at an interior sample it is 1 where the energy is
      non-zero and 0 where it is 0; every sample, edges included, is 0 or 1. */
  lemma IdenticalChannelsSembTrace(d: seq<seq<real>>, nt: nat, window: nat)
    requires IsGrid(d, nt) && |d| > 0
    requires forall c :: 0 <= c < |d| ==> d[c] == d[0]
    requires window / 2 < nt
    ensures CoherenceTrace(d, nt, window, "semb").Ok?
    ensures var r := CoherenceTrace(d, nt, window, "semb").value;
      forall w :: window / 2 <= w && w + window / 2 < nt ==>
        r[w] == if Energies(d, nt)[w] == 0.0 then 0.0 else 1.0
    ensures var r := CoherenceTrace(d, nt, window, "semb").value;
      forall t :: 0 <= t < nt ==> r[t] == 0.0 || r[t] == 1.0
  {
    var h, stack, energy := window / 2, Stacks(d, nt), Energies(d, nt);
    var ws := Windows(stack, energy, |d|, h);
    forall w | 0 <= w < nt
      ensures ws[w] == 0.0 || ws[w] == 1.0
      ensures h <= w && w + h < nt ==> ws[w] == if energy[w] == 0.0 then 0.0 else 1.0
    {
      if h <= w && w + h < nt {
        IdenticalChannelsFullSemblance(d, nt, h, w);
      }
    }
    EdgesOfZerosAndOnes(ws, h);
  }

  /** Replicating the edges of a trace of zeros and ones gives zeros and ones. */
  lemma EdgesOfZerosAndOnes(s: seq<real>, h: nat)
    requires h < |s| && forall t :: 0 <= t < |s| ==> s[t] == 0.0 || s[t] == 1.0
    ensures forall t :: 0 <= t < |s| ==> EdgesReplicated(s, h)[t] == 0.0 || EdgesReplicated(s, h)[t] == 1.0
  {
  }

  /** The window semblance of a stack nchan * x over an energy nchan * x^2. */
  lemma ScaledWindowSemblance(x: seq<real>, energy: seq<real>, nchan: nat, h: nat, w: nat)
    requires nchan > 0 && h <= w && w + h < |x|
    requires energy == ScaledSquares(x, nchan as real)
    requires forall k :: 0 <= k < |energy| ==> energy[k] >= 0.0
    ensures WindowSemblance(Scaled(x, nchan as real), energy, nchan, h, w) == if energy[w] == 0.0 then 0.0 else 1.0
  {
    if energy[w] != 0.0 {
      ScaledSlice(x, nchan as real, w - h, w + h + 1);
      SumPositive(energy[w - h .. w + h + 1], h);
      ScaledWindowRatio(x[w - h .. w + h + 1], nchan as real);
    }
  }

  /** The squares of a stack n * xs over the energies n * xs^2 give ratio 1 when the energy sum
      is positive. */
  lemma ScaledWindowRatio(xs: seq<real>, n: real)
    requires n > 0.0 && Sum(ScaledSquares(xs, n)) > 0.0
    ensures SumSq(Scaled(xs, n)) / Sum(ScaledSquares(xs, n)) / n == 1.0
  {
    ScaledSumSq(xs, n);
    ScaledSquaresSum(xs, n);
    SquareRatioIsOne(SumSq(Scaled(xs, n)), Sum(ScaledSquares(xs, n)), n, SumSq(xs));
  }

  /** Identical channels in 'stack' mode give back the channel itself. */
  lemma IdenticalChannelsStackIsChannel(d: seq<seq<real>>, nt: nat, window: nat)
    requires IsGrid(d, nt) && |d| > 0 && window / 2 < nt
    requires forall c :: 0 <= c < |d| ==> d[c] == d[0]
    ensures CoherenceTrace(d, nt, window, "stack") == Ok(d[0])
  {
    IdenticalChannelSums(d, nt);
    var n, stack := |d| as real, Stacks(d, nt);
    var r := CoherenceTrace(d, nt, window, "stack").value;
    assert r == seq(nt, t requires 0 <= t < nt => stack[t] / n);
    forall t | 0 <= t < nt
      ensures r[t] == d[0][t]
    {
      assert stack[t] == n * d[0][t];
      ScaleCancels(n, d[0][t]);
    }
    assert r == d[0];
  }

  lemma ScaleCancels(n: real, x: real)
    requires n > 0.0
    ensures n * x / n == x
  {
  }

  /** Channels that cancel at every sample give a zero semblance in every window. */
  lemma CancellingChannelsZeroWindows(d: seq<seq<real>>, nt: nat, h: nat, w: int)
    requires IsGrid(d, nt) && |d| > 0
    requires forall t :: 0 <= t < nt ==> Sum(Column(d, t)) == 0.0
    ensures var energy := Energies(d, nt);
      (forall k :: 0 <= k < nt ==> energy[k] >= 0.0) &&
      WindowSemblance(Stacks(d, nt), energy, |d|, h, w) == 0.0
  {
    var stack, energy := Stacks(d, nt), Energies(d, nt);
    if h <= w && w + h < nt && energy[w] != 0.0 {
      var ss := stack[w - h .. w + h + 1];
      SumConstant(ss, 0.0);
      assert SumSq(ss) == 0.0;
      SumPositive(energy[w - h .. w + h + 1], h);
      ZeroRatio(Sum(energy[w - h .. w + h + 1]), |d| as real);
    }
  }

  lemma ZeroRatio(b: real, n: real)
    requires b > 0.0 && n > 0.0
    ensures 0.0 / b / n == 0.0
  {
  }

  /** Channels that cancel at every sample give a zero trace in every mode. */
  lemma CancellingChannelsZeroTrace(d: seq<seq<real>>, nt: nat, window: nat, mode: string)
    requires IsGrid(d, nt) && |d| > 0
    requires forall t :: 0 <= t < nt ==> Sum(Column(d, t)) == 0.0
    requires CoherenceTrace(d, nt, window, mode).Ok?
    ensures forall t :: 0 <= t < nt ==> CoherenceTrace(d, nt, window, mode).value[t] == 0.0
  {
    var h, stack, energy := window / 2, Stacks(d, nt), Energies(d, nt);
    var ws := Windows(stack, energy, |d|, h);
    forall w | 0 <= w < nt
      ensures ws[w] == 0.0
    {
      CancellingChannelsZeroWindows(d, nt, h, w);
    }
    EdgesOfConstant(ws, h, 0.0);
    ZeroTracesInEveryMode(d, nt, window, mode);
  }

  /** When the semblance and the stack are zero throughout, so is every mode's trace. */
  lemma ZeroTracesInEveryMode(d: seq<seq<real>>, nt: nat, window: nat, mode: string)
    requires IsGrid(d, nt) && |d| > 0 && window / 2 < nt
    requires var stack := Stacks(d, nt);
      forall t :: 0 <= t < nt ==> stack[t] == 0.0
    requires var semb := SemblanceTrace(Stacks(d, nt), Energies(d, nt), |d|, window / 2);
      forall t :: 0 <= t < nt ==> semb[t] == 0.0
    requires CoherenceTrace(d, nt, window, mode).Ok?
    ensures forall t :: 0 <= t < nt ==> CoherenceTrace(d, nt, window, mode).value[t] == 0.0
  {
  }

  /** Replicating the edges of a constant trace leaves it constant. */
  lemma EdgesOfConstant(s: seq<real>, h: nat, c: real)
    requires h < |s| && forall t :: 0 <= t < |s| ==> s[t] == c
    ensures forall t :: 0 <= t < |s| ==> EdgesReplicated(s, h)[t] == c
  {
  }

  /** With no window fitting inside the trace (h < nt < 2h + 1) the semblance is zero throughout. */
  lemma ShortTraceZeroSemblance(d: seq<seq<real>>, nt: nat, window: nat)
    requires IsGrid(d, nt) && |d| > 0 && window / 2 < nt < 2 * (window / 2) + 1
    ensures CoherenceTrace(d, nt, window, "semb").Ok?
    ensures forall t :: 0 <= t < nt ==> CoherenceTrace(d, nt, window, "semb").value[t] == 0.0
  {
  }
}
