/** Index arithmetic of the unrolling windows. A training batch holds `n + 1` elements
    per tower (`n` = number of training unfoldings); window `i` of width `f`
    (the optimization frequency) feeds element `i*f + j` to the cell and pairs it with
    element `i*f + j + 1` as the label, for `j < f`. */
module Windows {
  import opened Outcomes

  /** Number of windows the graph-construction loop iterates over: `n // f`.
      Python's `//` raises ZeroDivisionError when `f` is zero. */
  function NumWindows(n: nat, f: nat): (r: Result<nat>)
    ensures r.Failure? <==> f == 0
    ensures r.Failure? ==> r.error == ZeroDivision
    ensures r.Success? ==> r.value * f <= n < r.value * f + f
  {
    if f == 0 then Failure(ZeroDivision) else Success(n / f)
  }

  function InputIndex(i: nat, f: nat, j: nat): nat
  {
    i * f + j
  }

  function LabelIndex(i: nat, f: nat, j: nat): nat
  {
    i * f + j + 1
  }

  /** Every index window `i` touches (its last label is `i*f + f`) lies below `len`. */
  predicate WindowFits(len: nat, i: nat, f: nat)
  {
    i * f + f < len
  }

  /** The `f` batch elements window `i` feeds to the cell, in step order. */
  function WindowInputs<X>(data: seq<X>, i: nat, f: nat): (r: seq<X>)
    requires WindowFits(|data|, i, f)
    ensures |r| == f
    ensures forall j :: 0 <= j < f ==> r[j] == data[InputIndex(i, f, j)]
  {
    data[i * f .. i * f + f]
  }

  /** The `f` batch elements window `i` uses as labels, in step order. */
  function WindowLabels<X>(data: seq<X>, i: nat, f: nat): (r: seq<X>)
    requires WindowFits(|data|, i, f)
    ensures |r| == f
    ensures forall j :: 0 <= j < f ==> r[j] == data[LabelIndex(i, f, j)]
  {
    data[i * f + 1 .. i * f + f + 1]
  }

  /** Label `j` of a window is the input of step `j + 1`; the last label of window `i`
      is the first input of window `i + 1`. */
  lemma LabelsShiftInputs<X>(data: seq<X>, i: nat, f: nat)
    requires WindowFits(|data|, i, f)
    ensures forall j :: 0 <= j < f - 1 ==> WindowLabels(data, i, f)[j] == WindowInputs(data, i, f)[j + 1]
    ensures f > 0 && WindowFits(|data|, i + 1, f) ==>
              WindowLabels(data, i, f)[f - 1] == WindowInputs(data, i + 1, f)[0]
  {
    if f > 0 && WindowFits(|data|, i + 1, f) {
      assert LabelIndex(i, f, f - 1) == InputIndex(i + 1, f, 0);
    }
  }

  /** Every window the construction loop builds (`i < n // f`) reads only indices below
      `n + 1`, the number of batch elements per tower, and each label follows its input. */
  lemma WindowIndicesInSlots(n: nat, f: nat, i: nat, j: nat)
    requires f > 0 && i < n / f && j < f
    ensures InputIndex(i, f, j) < LabelIndex(i, f, j) <= n
    ensures WindowFits(n + 1, i, f) && i * f + f <= (n / f) * f
  {
    assert (i + 1) * f <= (n / f) * f;
    assert (n / f) * f <= n;
    assert i * f + f == (i + 1) * f;
  }

  /** `k` is fed to the cell by some window of the construction loop. */
  ghost predicate UsedAsInput(n: nat, f: nat, k: nat)
    requires f > 0
  {
    exists i: nat, j: nat :: i < n / f && j < f && k == InputIndex(i, f, j)
  }

  /** `k` is used as a label by some window of the construction loop. */
  ghost predicate UsedAsLabel(n: nat, f: nat, k: nat)
    requires f > 0
  {
    exists i: nat, j: nat :: i < n / f && j < f && k == LabelIndex(i, f, j)
  }

  /** Decomposing `k` below `(n / f) * f` into window and step. */
  lemma Decompose(n: nat, f: nat, k: nat)
    requires f > 0 && k < (n / f) * f
    ensures k / f < n / f && k % f < f && k == InputIndex(k / f, f, k % f)
  {
  }

  /** The inputs of the windows built by the construction loop are exactly the indices
      `0 .. (n / f) * f - 1`; `train` runs only the last of those windows. */
  lemma InputIndicesExactly(n: nat, f: nat, k: nat)
    requires f > 0
    ensures UsedAsInput(n, f, k) <==> k < (n / f) * f
  {
    if UsedAsInput(n, f, k) {
      var i: nat, j: nat :| i < n / f && j < f && k == InputIndex(i, f, j);
      WindowIndicesInSlots(n, f, i, j);
    }
    if k < (n / f) * f {
      Decompose(n, f, k);
      assert UsedAsInput(n, f, k);
    }
  }

  lemma LabelIsShiftedInput(n: nat, f: nat, k: nat, i: nat, j: nat)
    requires f > 0 && i < n / f && j < f && k == LabelIndex(i, f, j)
    ensures k >= 1 && UsedAsInput(n, f, k - 1)
  {
    assert k - 1 == InputIndex(i, f, j);
  }

  lemma LabelFromDecomposition(n: nat, f: nat, k: nat)
    requires f > 0 && 1 <= k <= (n / f) * f
    ensures UsedAsLabel(n, f, k)
  {
    var m: nat := k - 1;
    Decompose(n, f, m);
    var i, j := m / f, m % f;
    assert k == LabelIndex(i, f, j);
  }

  /** The labels of the windows built by the construction loop are exactly the indices
      `1 .. (n / f) * f`. */
  lemma LabelIndicesExactly(n: nat, f: nat, k: nat)
    requires f > 0
    ensures UsedAsLabel(n, f, k) <==> 1 <= k <= (n / f) * f
  {
    if UsedAsLabel(n, f, k) {
      var i: nat, j: nat :| i < n / f && j < f && k == LabelIndex(i, f, j);
      LabelIsShiftedInput(n, f, k, i, j);
      InputIndicesExactly(n, f, k - 1);
    }
    if 1 <= k <= (n / f) * f {
      LabelFromDecomposition(n, f, k);
    }
  }

  /** When `f` does not divide `n`, the batch elements past `(n / f) * f` are neither
      fed to the cell nor used as labels. */
  lemma TailNeverUsed(n: nat, f: nat, k: nat)
    requires f > 0 && (n / f) * f < k
    ensures !UsedAsInput(n, f, k) && !UsedAsLabel(n, f, k)
  {
    InputIndicesExactly(n, f, k);
    LabelIndicesExactly(n, f, k);
  }
}
