/** Value views of the two-dimensional [channels, samples] arrays the pipeline works on. */
module Grids {

  /** Every row of d holds exactly cols samples. */
  predicate IsGrid(d: seq<seq<real>>, cols: nat)
  {
    forall c :: 0 <= c < |d| ==> |d[c]| == cols
  }

  /** The t-th column, d[:, t]. */
  function Column(d: seq<seq<real>>, t: nat): (col: seq<real>)
    requires forall c :: 0 <= c < |d| ==> t < |d[c]|
    ensures |col| == |d|
    ensures forall c :: 0 <= c < |d| ==> col[c] == d[c][t]
  {
    seq(|d|, c requires 0 <= c < |d| => d[c][t])
  }

  /** Row i of a 2-D array, a[i, :]. */
  function Row(a: array2<real>, i: nat): (row: seq<real>)
    reads a
    requires i < a.Length0
    ensures |row| == a.Length1
    ensures forall t :: 0 <= t < a.Length1 ==> row[t] == a[i, t]
  {
    seq(a.Length1, t requires 0 <= t < a.Length1 reads a => a[i, t])
  }

  /** The contents of a 2-D array as a sequence of rows. */
  function Cells(a: array2<real>): (d: seq<seq<real>>)
    reads a
    ensures |d| == a.Length0 && IsGrid(d, a.Length1)
    ensures forall c :: 0 <= c < a.Length0 ==> d[c] == Row(a, c)
  {
    seq(a.Length0, c requires 0 <= c < a.Length0 reads a => Row(a, c))
  }
}
