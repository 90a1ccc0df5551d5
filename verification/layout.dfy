/** Laying per-tower lists end to end: the tower-major concatenation the trainers use
    for logits and labels, the running sum of log-probabilities, and the index
    arithmetic of blocks of equal width. */
module Layout {

  /** Sum of a sequence of reals, accumulated from the left. */
  function Sum(xs: seq<real>): real
  {
    if xs == [] then 0.0 else Sum(xs[..|xs| - 1]) + xs[|xs| - 1]
  }

  /** Concatenation of a list of lists, in list order (the `all += part` loop). */
  function Flatten<T>(xss: seq<seq<T>>): seq<T>
  {
    if xss == [] then [] else Flatten(xss[..|xss| - 1]) + xss[|xss| - 1]
  }

  /** Position of element `j` of block `t` when blocks of length `width` are laid end to end. */
  function BlockIndex(t: nat, width: nat, j: nat): nat
  {
    t * width + j
  }

  /** Index arithmetic for a block that is not the last one: it ends before the last block starts. */
  lemma BlockBeforeLast(t: nat, last: nat, width: nat, j: nat)
    requires t < last && j < width
    ensures BlockIndex(t, width, j) < last * width
  {
    assert (t + 1) * width <= last * width;
  }

  lemma {:induction false} FlattenLength<T>(xss: seq<seq<T>>, width: nat)
    requires forall t :: 0 <= t < |xss| ==> |xss[t]| == width
    ensures |Flatten(xss)| == |xss| * width
  {
    if xss != [] {
      var last := |xss| - 1;
      FlattenLength(xss[..last], width);
      assert |xss| * width == last * width + width;
    }
  }

  /** One step of the layout: appending a block keeps the earlier positions and puts
      the new block right after them. */
  lemma FlattenSnocIndex<T>(xss: seq<seq<T>>, width: nat, t: nat, j: nat)
    requires xss != [] && t < |xss| && j < width && |xss[t]| == width
    requires |Flatten(xss[..|xss| - 1])| == (|xss| - 1) * width
    requires t < |xss| - 1 ==>
               BlockIndex(t, width, j) < |Flatten(xss[..|xss| - 1])| &&
               Flatten(xss[..|xss| - 1])[BlockIndex(t, width, j)] == xss[t][j]
    ensures BlockIndex(t, width, j) < |Flatten(xss)|
    ensures Flatten(xss)[BlockIndex(t, width, j)] == xss[t][j]
  {
    var last := |xss| - 1;
    var prefix := Flatten(xss[..last]);
    assert Flatten(xss) == prefix + xss[last];
    if t < last {
      BlockBeforeLast(t, last, width, j);
    } else {
      assert BlockIndex(t, width, j) == |prefix| + j;
    }
  }

  /** Laying out blocks of equal width: the length is blocks × width and element `j` of
      block `t` sits at `t * width + j`. */
  lemma {:induction false} FlattenUniform<T>(xss: seq<seq<T>>, width: nat)
    requires forall t :: 0 <= t < |xss| ==> |xss[t]| == width
    ensures |Flatten(xss)| == |xss| * width
    ensures forall t, j :: 0 <= t < |xss| && 0 <= j < width ==>
              BlockIndex(t, width, j) < |Flatten(xss)| && Flatten(xss)[BlockIndex(t, width, j)] == xss[t][j]
  {
    FlattenLength(xss, width);
    if xss != [] {
      var init := xss[..|xss| - 1];
      FlattenUniform(init, width);
      forall t, j | 0 <= t < |xss| && 0 <= j < width
        ensures BlockIndex(t, width, j) < |Flatten(xss)| && Flatten(xss)[BlockIndex(t, width, j)] == xss[t][j]
      {
        if t < |xss| - 1 {
          assert init[t] == xss[t];
        }
        FlattenSnocIndex(xss, width, t, j);
      }
    }
  }

  /** Splitting off the last element of a non-empty right operand. */
  lemma AppendSnoc<T>(xs: seq<T>, ys: seq<T>)
    requires ys != []
    ensures ys == ys[..|ys| - 1] + [ys[|ys| - 1]]
    ensures xs + ys == (xs + ys[..|ys| - 1]) + [ys[|ys| - 1]]
  {
  }

  /** Position `k` of the right operand sits `|xs|` further on in the concatenation. */
  lemma AppendIndex<T>(xs: seq<T>, ys: seq<T>, k: nat)
    requires k < |ys|
    ensures |xs| + k < |xs + ys| && (xs + ys)[|xs| + k] == ys[k]
  {
  }
}
