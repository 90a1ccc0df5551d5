/** Unrolling a recurrent cell: a step function is applied input by input, threading
    the recurrent state and collecting one output per step. The cell itself is opaque;
    only the threading is modelled. */
module Unroll {

  /** The state after the last step and the outputs of every step, in order. */
  datatype Unrolled<S, Y> = Unrolled(state: S, outputs: seq<Y>)

  /** Feeds `xs` through `step`, starting from state `s`: the loop
      `output, state = cell(x, state); outputs.append(output)`. */
  function Run<X, S, Y>(step: (X, S) -> (Y, S), s: S, xs: seq<X>): (r: Unrolled<S, Y>)
    ensures |r.outputs| == |xs|
    decreases |xs|
  {
    if xs == [] then Unrolled(s, [])
    else
      var first := step(xs[0], s);
      var rest := Run(step, first.1, xs[1..]);
      Unrolled(rest.state, [first.0] + rest.outputs)
  }

  /** Reference definition: the recurrent state once the first `k` inputs are consumed. */
  function StateAfter<X, S, Y>(step: (X, S) -> (Y, S), s: S, xs: seq<X>, k: nat): S
    requires k <= |xs|
  {
    if k == 0 then s else step(xs[k - 1], StateAfter(step, s, xs, k - 1)).1
  }

  /** Reference definition: the output of step `k`, computed from the state before it. */
  function OutputAt<X, S, Y>(step: (X, S) -> (Y, S), s: S, xs: seq<X>, k: nat): Y
    requires k < |xs|
  {
    step(xs[k], StateAfter(step, s, xs, k)).0
  }

  /** Consuming the first input, then `k` more, is consuming `k + 1` inputs. */
  lemma {:induction false} StateAfterShift<X, S, Y>(step: (X, S) -> (Y, S), s: S, xs: seq<X>, k: nat)
    requires 0 < |xs| && k < |xs|
    ensures StateAfter(step, s, xs, k + 1) == StateAfter(step, step(xs[0], s).1, xs[1..], k)
  {
    if k > 0 {
      StateAfterShift(step, s, xs, k - 1);
    }
  }

  /** The unroll agrees with the reference: it ends in the state after all inputs, and
      output `k` is produced from the state after the first `k` inputs. */
  lemma {:induction false} RunMatchesReference<X, S, Y>(step: (X, S) -> (Y, S), s: S, xs: seq<X>)
    ensures Run(step, s, xs).state == StateAfter(step, s, xs, |xs|)
    ensures forall k :: 0 <= k < |xs| ==> Run(step, s, xs).outputs[k] == OutputAt(step, s, xs, k)
  {
    if xs != [] {
      var s1 := step(xs[0], s).1;
      RunMatchesReference(step, s1, xs[1..]);
      StateAfterShift(step, s, xs, |xs| - 1);
      forall k | 0 <= k < |xs|
        ensures Run(step, s, xs).outputs[k] == OutputAt(step, s, xs, k)
      {
        if k > 0 {
          StateAfterShift(step, s, xs, k - 1);
          assert xs[1..][k - 1] == xs[k];
        }
      }
    }
  }

  /** The state after `k` inputs depends only on those inputs. */
  lemma {:induction false} StateAfterPrefix<X, S, Y>(step: (X, S) -> (Y, S), s: S, xs: seq<X>, ys: seq<X>, k: nat)
    requires k <= |xs|
    ensures StateAfter(step, s, xs + ys, k) == StateAfter(step, s, xs, k)
  {
    if k > 0 {
      StateAfterPrefix(step, s, xs, ys, k - 1);
      assert (xs + ys)[k - 1] == xs[k - 1];
    }
  }

  /** Persisting the state between two unrolls is the same as one unroll over the
      concatenated inputs. */
  lemma {:induction false} StateAfterAppend<X, S, Y>(step: (X, S) -> (Y, S), s: S, xs: seq<X>, ys: seq<X>, k: nat)
    requires k <= |ys|
    ensures StateAfter(step, s, xs + ys, |xs| + k) == StateAfter(step, StateAfter(step, s, xs, |xs|), ys, k)
  {
    if k == 0 {
      StateAfterPrefix(step, s, xs, ys, |xs|);
    } else {
      StateAfterAppend(step, s, xs, ys, k - 1);
      assert (xs + ys)[|xs| + k - 1] == ys[k - 1];
    }
  }

  /** A whole unroll over `zs = xs + ys` ends where an unroll over `ys` ends when it
      starts from the state an unroll over `xs` left. */
  lemma StateAfterConcat<X, S, Y>(step: (X, S) -> (Y, S), s: S, xs: seq<X>, ys: seq<X>, zs: seq<X>, k: nat)
    requires zs == xs + ys && k == |ys|
    ensures StateAfter(step, s, zs, |zs|) == StateAfter(step, StateAfter(step, s, xs, |xs|), ys, k)
  {
    StateAfterAppend(step, s, xs, ys, k);
  }

  /** The output of a step in the second of two persisted unrolls is the output of the
      matching step of one unroll over the concatenated inputs. */
  lemma OutputAtAppend<X, S, Y>(step: (X, S) -> (Y, S), s: S, xs: seq<X>, ys: seq<X>, k: nat)
    requires k < |ys|
    ensures OutputAt(step, s, xs + ys, |xs| + k) == OutputAt(step, StateAfter(step, s, xs, |xs|), ys, k)
  {
    StateAfterAppend(step, s, xs, ys, k);
    assert (xs + ys)[|xs| + k] == ys[k];
  }
}
