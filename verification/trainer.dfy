/** The trainer's control loop, shared by the SRN and LSTM trainers: per epoch, reset
    and run the training batches, reset and run the validation batches, compute the
    validation perplexity and apply the learning-rate policy. The batches each tower's
    generator yields after its reset are inputs; the optimizer step, the softmax with
    log-probability, and `2 ** x` are opaque collaborators. */
module Trainer {
  import opened Outcomes
  import opened Layout
  import opened Unroll
  import opened Windows
  import opened Tensors
  import opened Cells
  import opened Towers
  import opened Policy
  import Graph

  /** The hyperparameters the orchestration reads: the constructor's sizes and the
      `summary_frequency` argument of `train`. */
  datatype Hyper = Hyper(
    numTowers: nat,
    hiddenSize: nat,
    batchSize: nat,
    numTrainingUnfoldings: nat,
    numValidationUnfoldings: nat,
    optimizationFrequency: nat,
    summaryFrequency: nat)

  /** Opaque collaborators: `optimize(params, rate, logits, labels)` stands for the mean
      cross-entropy, its gradients, the global-norm clip and the momentum step;
      `logProb(output, label)` for the softmax followed by the log2 probability of the
      label; `pow2(x)` for `2 ** x`. */
  datatype Externals<!P, !X, !Y> = Externals(
    optimize: (P, real, seq<Y>, seq<X>) -> P,
    logProb: (Y, X) -> real,
    pow2: real -> real)

  /** The parameters and the training slot table between two training batches. */
  datatype Progress<P, S> = Progress(params: P, slots: seq<S>)

  /** The log-probability terms of a validation run, in accumulation order, and the
      validation slot table after it. */
  datatype Scored<S> = Scored(terms: seq<real>, slots: seq<S>)

  /** The state the epoch loop threads: parameters, learning rate with the previous
      epoch's perplexity, and the perplexity of every finished epoch. */
  datatype TrainState<P> = TrainState(params: P, rate: RateState, history: seq<real>)

  /** The cell step under fixed parameters: every tower of one run reads the same
      parameter set. */
  function Bind<P, X, S, Y>(cell: Cell<P, X, S, Y>, p: P): (X, S) -> (Y, S)
  {
    (x, s) => cell.step(p, x, s)
  }

  /** Every fetched batch holds one entry per tower. */
  predicate PerTower<X>(batches: seq<seq<seq<X>>>, towers: nat)
  {
    forall b :: 0 <= b < |batches| ==> |batches[b]| == towers
  }

  /** Every tower's batch has at least `len` elements, so feeding indices `0 .. len - 1`
      succeeds. */
  predicate Fed<X>(batch: seq<seq<X>>, len: nat)
  {
    forall t :: 0 <= t < |batch| ==> len <= |batch[t]|
  }

  /** Feeding `u` validation inputs and their labels `i + 1` succeeds. */
  predicate ValidationFed<X>(batch: seq<seq<X>>, u: nat)
  {
    u == 0 || Fed(batch, u + 1)
  }

  /** The training reset group: every tower's slot zeroed at batch_size rows. */
  function ResetTraining<P, X, S, Y>(cell: Cell<P, X, S, Y>, h: Hyper): (r: seq<S>)
    ensures |r| == h.numTowers
    ensures forall t :: 0 <= t < |r| ==> r[t] == cell.zero(h.batchSize, h.hiddenSize)
  {
    ResetSlots(h.numTowers, cell.zero(h.batchSize, h.hiddenSize))
  }

  /** The validation reset group: every tower's slot zeroed at one row. */
  function ResetValidation<P, X, S, Y>(cell: Cell<P, X, S, Y>, h: Hyper): (r: seq<S>)
    ensures |r| == h.numTowers
    ensures forall t :: 0 <= t < |r| ==> r[t] == cell.zero(1, h.hiddenSize)
  {
    ResetSlots(h.numTowers, cell.zero(1, h.hiddenSize))
  }

  /** SRN training reset: every tower's hidden slot is the zero batch_size × hidden tensor. */
  lemma SrnTrainingResetZeroes<P, X, Y>(transition: (P, X, Tensor) -> Tensor, readout: (P, Tensor) -> Y, h: Hyper)
    ensures |ResetTraining(Srn(transition, readout), h)| == h.numTowers
    ensures forall t :: 0 <= t < h.numTowers ==>
              HasShape(ResetTraining(Srn(transition, readout), h)[t], h.batchSize, h.hiddenSize) &&
              IsZero(ResetTraining(Srn(transition, readout), h)[t])
  {
  }

  /** SRN validation reset: every tower's hidden slot is the zero 1 × hidden tensor. */
  lemma SrnValidationResetZeroes<P, X, Y>(transition: (P, X, Tensor) -> Tensor, readout: (P, Tensor) -> Y, h: Hyper)
    ensures |ResetValidation(Srn(transition, readout), h)| == h.numTowers
    ensures forall t :: 0 <= t < h.numTowers ==>
              HasShape(ResetValidation(Srn(transition, readout), h)[t], 1, h.hiddenSize) &&
              IsZero(ResetValidation(Srn(transition, readout), h)[t])
  {
  }

  /** LSTM training reset: both saved tensors of every tower are zero, batch_size × hidden. */
  lemma LstmTrainingResetZeroes<P, X, Y>(gates: (P, X, Tensor, Tensor) -> (Tensor, Tensor),
                                         project: (P, Tensor) -> Y, h: Hyper)
    ensures |ResetTraining(Lstm(gates, project), h)| == h.numTowers
    ensures forall t :: 0 <= t < h.numTowers ==>
              var s := ResetTraining(Lstm(gates, project), h)[t];
              HasShape(s.output, h.batchSize, h.hiddenSize) && IsZero(s.output) &&
              HasShape(s.cell, h.batchSize, h.hiddenSize) && IsZero(s.cell)
  {
  }

  /** LSTM validation reset: both saved tensors of every tower are zero, 1 × hidden. */
  lemma LstmValidationResetZeroes<P, X, Y>(gates: (P, X, Tensor, Tensor) -> (Tensor, Tensor),
                                           project: (P, Tensor) -> Y, h: Hyper)
    ensures |ResetValidation(Lstm(gates, project), h)| == h.numTowers
    ensures forall t :: 0 <= t < h.numTowers ==>
              var s := ResetValidation(Lstm(gates, project), h)[t];
              HasShape(s.output, 1, h.hiddenSize) && IsZero(s.output) &&
              HasShape(s.cell, 1, h.hiddenSize) && IsZero(s.cell)
  {
  }

  /** One training batch: feed the `n + 1` elements of every tower (IndexError if a
      tower's batch is shorter), then run the reachable optimizer op (AttributeError if
      the construction loop never assigned one). The op runs the reachable window on
      every tower from its saved state, saves the states, and applies one optimizer step
      to the tower-major logits and labels. */
  function TrainingBatch<P, X, S, Y>(cell: Cell<P, X, S, Y>, ext: Externals<P, X, Y>, n: nat, f: nat, rate: real,
                                     pr: Progress<P, S>, batch: seq<seq<X>>): (r: Result<Progress<P, S>>)
    requires f > 0 && |batch| == |pr.slots|
    ensures !Fed(batch, n + 1) ==> r == Failure(IndexOutOfRange)
    ensures Fed(batch, n + 1) && Graph.ReachableWindow(n, f).None? ==> r == Failure(MissingAttribute)
    ensures r.Success? <==> Fed(batch, n + 1) && Graph.ReachableWindow(n, f).Some?
    ensures r.Success? ==> |r.value.slots| == |pr.slots|
    ensures r.Success? ==>
              var i := Graph.ReachableWindow(n, f).value;
              forall t :: 0 <= t < |pr.slots| ==>
                WindowFits(|batch[t]|, i, f) &&
                r.value.slots[t] == StateAfter(Bind(cell, pr.params), pr.slots[t], WindowInputs(batch[t], i, f), f)
    ensures r.Success? ==>
              var i := Graph.ReachableWindow(n, f).value;
              var w := TrainingWindow(Bind(cell, pr.params), pr.slots, batch, i, f);
              r.value.params == ext.optimize(pr.params, rate, w.outputs, w.labels)
  {
    if !Fed(batch, n + 1) then Failure(IndexOutOfRange)
    else
      match Graph.ReachableWindow(n, f)
      case None => Failure(MissingAttribute)
      case Some(i) =>
        var w := TrainingWindow(Bind(cell, pr.params), pr.slots, batch, i, f);
        Success(Progress(ext.optimize(pr.params, rate, w.outputs, w.labels), w.slots))
  }

  /** The training batches of one epoch, in order, threading parameters and slots.
      After every batch the summary test `(batch + 1) % summary_frequency` raises
      ZeroDivisionError when the frequency is zero, so with frequency zero the first
      batch that runs is also the last. */
  function TrainingPhase<P, X, S, Y>(cell: Cell<P, X, S, Y>, ext: Externals<P, X, Y>, n: nat, f: nat, summary: nat,
                                     rate: real, pr: Progress<P, S>, batches: seq<seq<seq<X>>>)
    : (r: Result<Progress<P, S>>)
    requires f > 0 && PerTower(batches, |pr.slots|)
    ensures r.Success? <==>
              batches == [] || (summary > 0 && Graph.ReachableWindow(n, f).Some? && AllFed(batches, n + 1))
    ensures batches != [] && !Fed(batches[0], n + 1) ==> r == Failure(IndexOutOfRange)
    ensures batches != [] && Fed(batches[0], n + 1) && Graph.ReachableWindow(n, f).None? ==>
              r == Failure(MissingAttribute)
    ensures batches != [] && Fed(batches[0], n + 1) && Graph.ReachableWindow(n, f).Some? && summary == 0 ==>
              r == Failure(ZeroDivision)
    ensures summary > 0 && Graph.ReachableWindow(n, f).Some? && !AllFed(batches, n + 1) ==>
              r == Failure(IndexOutOfRange)
    ensures r.Success? ==> |r.value.slots| == |pr.slots|
    decreases |batches|
  {
    if batches == [] then Success(pr)
    else
      var init := batches[..|batches| - 1];
      var last := batches[|batches| - 1];
      AllFedSnoc(batches, n + 1);
      assert init != [] ==> init[0] == batches[0];
      var prev := TrainingPhase(cell, ext, n, f, summary, rate, pr, init);
      if prev.Failure? then prev
      else TrainingStep(cell, ext, n, f, summary, rate, prev.value, last)
  }

  /** One iteration of the training loop: the batch, then the summary test. */
  function TrainingStep<P, X, S, Y>(cell: Cell<P, X, S, Y>, ext: Externals<P, X, Y>, n: nat, f: nat, summary: nat,
                                    rate: real, pr: Progress<P, S>, batch: seq<seq<X>>): (r: Result<Progress<P, S>>)
    requires f > 0 && |batch| == |pr.slots|
    ensures r.Success? <==> summary > 0 && TrainingBatch(cell, ext, n, f, rate, pr, batch).Success?
    ensures r.Failure? ==> r.error == if summary > 0 || TrainingBatch(cell, ext, n, f, rate, pr, batch).Failure?
                                     then TrainingBatch(cell, ext, n, f, rate, pr, batch).error else ZeroDivision
    ensures r.Success? ==> r == TrainingBatch(cell, ext, n, f, rate, pr, batch)
  {
    var next := TrainingBatch(cell, ext, n, f, rate, pr, batch);
    if next.Failure? then next
    else if summary == 0 then Failure(ZeroDivision)
    else next
  }

  /** The last batch of a successful phase: every tower's slot is the state after the
      reachable window of that batch, started from the tower's slot after the earlier
      batches under the parameters in force then; and those parameters receive one more
      optimizer step, on that window's tower-major logits and labels. */
  lemma TrainingPhaseLastBatch<P, X, S, Y>(cell: Cell<P, X, S, Y>, ext: Externals<P, X, Y>,
                                           n: nat, f: nat, summary: nat, rate: real, pr: Progress<P, S>,
                                           batches: seq<seq<seq<X>>>, t: nat)
    requires f > 0 && PerTower(batches, |pr.slots|) && batches != [] && t < |pr.slots|
    requires TrainingPhase(cell, ext, n, f, summary, rate, pr, batches).Success?
    ensures var prev := TrainingPhase(cell, ext, n, f, summary, rate, pr, batches[..|batches| - 1]);
            var last := batches[|batches| - 1];
            var r := TrainingPhase(cell, ext, n, f, summary, rate, pr, batches).value;
            prev.Success? && Graph.ReachableWindow(n, f).Some? &&
            var i := Graph.ReachableWindow(n, f).value;
            WindowFits(|last[t]|, i, f) &&
            r.slots[t] ==
              StateAfter(Bind(cell, prev.value.params), prev.value.slots[t], WindowInputs(last[t], i, f), f) &&
            var w := TrainingWindow(Bind(cell, prev.value.params), prev.value.slots, last, i, f);
            r.params == ext.optimize(prev.value.params, rate, w.outputs, w.labels)
  {
  }

  /** A phase over `init + [last]` is the phase over `init` followed by one loop
      iteration on `last`, unless the phase over `init` already failed. */
  lemma TrainingPhaseSnoc<P, X, S, Y>(cell: Cell<P, X, S, Y>, ext: Externals<P, X, Y>, n: nat, f: nat, summary: nat,
                                      rate: real, pr: Progress<P, S>, init: seq<seq<seq<X>>>, last: seq<seq<X>>)
    requires f > 0 && PerTower(init, |pr.slots|) && |last| == |pr.slots|
    ensures PerTower(init + [last], |pr.slots|)
    ensures var prev := TrainingPhase(cell, ext, n, f, summary, rate, pr, init);
            TrainingPhase(cell, ext, n, f, summary, rate, pr, init + [last]) ==
              if prev.Failure? then prev else TrainingStep(cell, ext, n, f, summary, rate, prev.value, last)
  {
    var bs := init + [last];
    assert bs[..|bs| - 1] == init;
    assert bs[|bs| - 1] == last;
  }

  /** Persistence across training phases: running the batches `xs` and then, from the
      parameters and slots they leave, the batches `ys` is running `xs + ys` in one phase;
      a failure within `xs` is the failure of the whole. */
  lemma {:induction false} TrainingPhaseAppend<P, X, S, Y>(cell: Cell<P, X, S, Y>, ext: Externals<P, X, Y>,
                                                          n: nat, f: nat, summary: nat, rate: real, pr: Progress<P, S>,
                                                          xs: seq<seq<seq<X>>>, ys: seq<seq<seq<X>>>)
    requires f > 0 && PerTower(xs, |pr.slots|) && PerTower(ys, |pr.slots|)
    ensures PerTower(xs + ys, |pr.slots|)
    ensures var first := TrainingPhase(cell, ext, n, f, summary, rate, pr, xs);
            TrainingPhase(cell, ext, n, f, summary, rate, pr, xs + ys) ==
              if first.Failure? then first else TrainingPhase(cell, ext, n, f, summary, rate, first.value, ys)
    decreases |ys|
  {
    if ys == [] {
      assert xs + ys == xs;
    } else {
      var init := ys[..|ys| - 1];
      var last := ys[|ys| - 1];
      AppendSnoc(xs, ys);
      assert PerTower(init, |pr.slots|);
      TrainingPhaseAppend(cell, ext, n, f, summary, rate, pr, xs, init);
      TrainingPhaseSnoc(cell, ext, n, f, summary, rate, pr, xs + init, last);
      var first := TrainingPhase(cell, ext, n, f, summary, rate, pr, xs);
      if first.Success? {
        TrainingPhaseSnoc(cell, ext, n, f, summary, rate, first.value, init, last);
      }
    }
  }

  /** Every batch of the list is fed for `len` elements per tower. */
  predicate AllFed<X>(batches: seq<seq<seq<X>>>, len: nat)
  {
    forall b :: 0 <= b < |batches| ==> Fed(batches[b], len)
  }

  lemma AllFedSnoc<X>(batches: seq<seq<seq<X>>>, len: nat)
    requires batches != []
    ensures AllFed(batches, len) <==> AllFed(batches[..|batches| - 1], len) && Fed(batches[|batches| - 1], len)
  {
    var init := batches[..|batches| - 1];
    if AllFed(init, len) && Fed(batches[|batches| - 1], len) {
      forall b | 0 <= b < |batches|
        ensures Fed(batches[b], len)
      {
        if b < |init| {
          assert batches[b] == init[b];
        }
      }
    }
  }

  /** One validation batch: feed input `i` and label `i + 1` of every tower for
      `i < u` (IndexError if a tower's batch is too short), run every tower over its `u`
      inputs from its saved state, and score each output against its label, tower by
      tower. */
  function ValidationBatch<X, S, Y>(step: (X, S) -> (Y, S), logProb: (Y, X) -> real, u: nat,
                                    slots: seq<S>, batch: seq<seq<X>>): (r: Result<Scored<S>>)
    requires |batch| == |slots|
    ensures r.Failure? <==> !ValidationFed(batch, u)
    ensures r.Failure? ==> r.error == IndexOutOfRange
    ensures r.Success? ==> |r.value.terms| == |slots| * u && |r.value.slots| == |slots|
    ensures r.Success? ==> forall t, i :: 0 <= t < |slots| && 0 <= i < u ==>
              i + 1 < |batch[t]| && BlockIndex(t, u, i) < |r.value.terms| &&
              r.value.terms[BlockIndex(t, u, i)] == logProb(OutputAt(step, slots[t], batch[t][..u], i), batch[t][i + 1])
    ensures r.Success? ==> forall t :: 0 <= t < |slots| ==>
              u <= |batch[t]| && r.value.slots[t] == StateAfter(step, slots[t], batch[t][..u], u)
  {
    if !ValidationFed(batch, u) then Failure(IndexOutOfRange)
    else
      var run := ValidationTowers(step, slots, Heads(batch, u), |slots|);
      var perTower := seq(|slots|, t requires 0 <= t < |slots| =>
                        seq(u, i requires 0 <= i < u => logProb(run.outputs[t][i], batch[t][i + 1])));
      FlattenUniform(perTower, u);
      Success(Scored(Flatten(perTower), run.slots))
  }

  /** Every tower's first `u` inputs: what the validation feed reads. */
  function Heads<X>(batch: seq<seq<X>>, u: nat): (r: seq<seq<X>>)
    requires Fed(batch, u)
    ensures |r| == |batch|
    ensures forall t :: 0 <= t < |batch| ==> r[t] == batch[t][..u]
    decreases |batch|
  {
    if batch == [] then [] else Heads(batch[..|batch| - 1], u) + [batch[|batch| - 1][..u]]
  }

  /** One term of a validation batch, read off its contract. */
  lemma ValidationBatchTerm<X, S, Y>(step: (X, S) -> (Y, S), logProb: (Y, X) -> real, u: nat,
                                     slots: seq<S>, batch: seq<seq<X>>, next: Scored<S>, t: nat, i: nat)
    requires |batch| == |slots| && t < |slots| && i < u
    requires ValidationBatch(step, logProb, u, slots, batch) == Success(next)
    ensures i + 1 < |batch[t]| && BlockIndex(t, u, i) < |next.terms|
    ensures next.terms[BlockIndex(t, u, i)] == logProb(OutputAt(step, slots[t], batch[t][..u], i), batch[t][i + 1])
  {
  }

  /** The validation batches of one pass, in order, threading the slots and collecting
      every log-probability term. */
  function ValidationPhase<X, S, Y>(step: (X, S) -> (Y, S), logProb: (Y, X) -> real, u: nat,
                                    slots: seq<S>, batches: seq<seq<seq<X>>>): (r: Result<Scored<S>>)
    requires PerTower(batches, |slots|)
    ensures r.Success? <==> PassFed(batches, u)
    ensures r.Failure? ==> r.error == IndexOutOfRange
    ensures r.Success? ==> |r.value.terms| == |batches| * (|slots| * u) && |r.value.slots| == |slots|
    decreases |batches|
  {
    if batches == [] then Success(Scored([], slots))
    else
      PassFedSnoc(batches, u);
      var prev := ValidationPhase(step, logProb, u, slots, batches[..|batches| - 1]);
      if prev.Failure? then prev
      else
        var cur := ValidationBatch(step, logProb, u, prev.value.slots, batches[|batches| - 1]);
        if cur.Failure? then cur
        else
          assert (|batches| - 1) * (|slots| * u) + |slots| * u == |batches| * (|slots| * u);
          Success(Scored(prev.value.terms + cur.value.terms, cur.value.slots))
  }

  /** Every batch of the pass is fed for `u` validation steps. */
  predicate PassFed<X>(batches: seq<seq<seq<X>>>, u: nat)
  {
    forall b :: 0 <= b < |batches| ==> ValidationFed(batches[b], u)
  }

  lemma PassFedSnoc<X>(batches: seq<seq<seq<X>>>, u: nat)
    requires batches != []
    ensures PassFed(batches, u) <==> PassFed(batches[..|batches| - 1], u) && ValidationFed(batches[|batches| - 1], u)
  {
    var init := batches[..|batches| - 1];
    if PassFed(init, u) && ValidationFed(batches[|batches| - 1], u) {
      forall b | 0 <= b < |batches|
        ensures ValidationFed(batches[b], u)
      {
        if b < |init| {
          assert batches[b] == init[b];
        }
      }
    }
  }

  /** Every batch of the pass holds at least `u` validation inputs for tower `t`. */
  predicate StreamFed<X>(batches: seq<seq<seq<X>>>, t: nat, u: nat)
  {
    forall b :: 0 <= b < |batches| ==> t < |batches[b]| && u <= |batches[b][t]|
  }

  /** Tower `t`'s validation inputs of a whole pass, batch after batch. This is the
      `Flatten` of the tower's per-batch inputs (`StreamIsFlatten`), written out with the
      same last-batch recursion as `ValidationPhase` so that the persistence lemmas can
      peel one batch off both at once. */
  ghost function Stream<X>(batches: seq<seq<seq<X>>>, t: nat, u: nat): seq<X>
    requires StreamFed(batches, t, u)
  {
    if batches == [] then [] else Stream(batches[..|batches| - 1], t, u) + batches[|batches| - 1][t][..u]
  }

  /** Tower `t`'s first `u` inputs of every batch of the pass. */
  ghost function StreamBlocks<X>(batches: seq<seq<seq<X>>>, t: nat, u: nat): (r: seq<seq<X>>)
    requires StreamFed(batches, t, u)
    ensures |r| == |batches| && forall b :: 0 <= b < |batches| ==> r[b] == batches[b][t][..u]
  {
    seq(|batches|, b requires 0 <= b < |batches| => batches[b][t][..u])
  }

  /** The stream is the tower's per-batch inputs laid end to end. */
  lemma {:induction false} StreamIsFlatten<X>(batches: seq<seq<seq<X>>>, t: nat, u: nat)
    requires StreamFed(batches, t, u)
    ensures Stream(batches, t, u) == Flatten(StreamBlocks(batches, t, u))
  {
    if batches != [] {
      var init := batches[..|batches| - 1];
      var blocks := StreamBlocks(batches, t, u);
      StreamIsFlatten(init, t, u);
      assert StreamBlocks(init, t, u) == blocks[..|blocks| - 1];
    }
  }

  /** A successful pass over `batches` is a successful pass over all but the last batch,
      after which the last batch moves tower `t` on by one unroll of its `u` inputs. */
  lemma ValidationPhaseSnoc<X, S, Y>(step: (X, S) -> (Y, S), logProb: (Y, X) -> real, u: nat,
                                     slots: seq<S>, batches: seq<seq<seq<X>>>, t: nat, pass: Scored<S>)
    requires batches != [] && PerTower(batches, |slots|) && t < |slots|
    requires ValidationPhase(step, logProb, u, slots, batches) == Success(pass)
    ensures var prev := ValidationPhase(step, logProb, u, slots, batches[..|batches| - 1]);
            var last := batches[|batches| - 1];
            prev.Success? && |prev.value.slots| == |slots| && u <= |last[t]| &&
            pass.slots[t] == StateAfter(step, prev.value.slots[t], last[t][..u], u)
  {
    var prev := ValidationPhase(step, logProb, u, slots, batches[..|batches| - 1]);
    var next := ValidationBatch(step, logProb, u, prev.value.slots, batches[|batches| - 1]);
    assert pass.slots == next.value.slots;
  }

  /** A successful pass had every tower's `u` validation inputs in every batch. */
  lemma PassFeedsEveryTower<X, S, Y>(step: (X, S) -> (Y, S), logProb: (Y, X) -> real, u: nat,
                                     slots: seq<S>, batches: seq<seq<seq<X>>>, pass: Scored<S>)
    requires PerTower(batches, |slots|)
    requires ValidationPhase(step, logProb, u, slots, batches) == Success(pass)
    ensures forall b :: 0 <= b < |batches| ==> forall t :: 0 <= t < |slots| ==> u <= |batches[b][t]|
  {
    forall b, t | 0 <= b < |batches| && 0 <= t < |slots|
      ensures u <= |batches[b][t]|
    {
      assert ValidationFed(batches[b], u);
    }
  }

  /** State persists across the batches of a validation pass: each tower ends in the
      state of one unroll over all its validation inputs of the pass, started from its
      own slot, whatever the other towers did. */
  lemma {:induction false} ValidationPassIsOneUnroll<X, S, Y>(step: (X, S) -> (Y, S), logProb: (Y, X) -> real, u: nat,
                                                             slots: seq<S>, batches: seq<seq<seq<X>>>, t: nat,
                                                             pass: Scored<S>)
    requires PerTower(batches, |slots|) && t < |slots|
    requires ValidationPhase(step, logProb, u, slots, batches) == Success(pass)
    ensures StreamFed(batches, t, u)
    ensures pass.slots[t] == StateAfter(step, slots[t], Stream(batches, t, u), |Stream(batches, t, u)|)
    decreases |batches|
  {
    PassFeedsEveryTower(step, logProb, u, slots, batches, pass);
    if batches == [] {
      return;
    }
    var init := batches[..|batches| - 1];
    var last := batches[|batches| - 1];
    ValidationPhaseSnoc(step, logProb, u, slots, batches, t, pass);
    var prev := ValidationPhase(step, logProb, u, slots, init).value;
    ValidationPassIsOneUnroll(step, logProb, u, slots, init, t, prev);
    var xs := Stream(init, t, u);
    var ys := last[t][..u];
    var zs := Stream(batches, t, u);
    assert zs == xs + ys;
    StateAfterConcat(step, slots[t], xs, ys, zs, u);
  }

  /** The stream of a pass holds `u` inputs per batch. */
  lemma {:induction false} StreamLength<X>(batches: seq<seq<seq<X>>>, t: nat, u: nat)
    requires StreamFed(batches, t, u)
    ensures |Stream(batches, t, u)| == |batches| * u
  {
    if batches != [] {
      StreamLength(batches[..|batches| - 1], t, u);
      assert |batches| * u == (|batches| - 1) * u + u;
    }
  }

  /** The definition's recursive step: a successful pass over `j + 1` batches is a
      successful pass over the first `j` followed by a successful batch `j`, whose terms
      come after the earlier ones. */
  lemma ValidationPhaseSplit<X, S, Y>(step: (X, S) -> (Y, S), logProb: (Y, X) -> real, u: nat,
                                      slots: seq<S>, batches: seq<seq<seq<X>>>, pass: Scored<S>, j: nat)
    requires |batches| == j + 1 && PerTower(batches, |slots|)
    requires ValidationPhase(step, logProb, u, slots, batches) == Success(pass)
    ensures PerTower(batches[..j], |slots|)
    ensures var prev := ValidationPhase(step, logProb, u, slots, batches[..j]);
            prev.Success? && |prev.value.slots| == |slots| &&
            var next := ValidationBatch(step, logProb, u, prev.value.slots, batches[j]);
            next.Success? && pass == Scored(prev.value.terms + next.value.terms, next.value.slots)
  {
  }

  /** The terms one batch adds to a pass: term `t*u + i` past the earlier terms scores
      tower `t`'s output for step `i`, started from its slot after the earlier batches. */
  lemma ValidationBatchTermInPass<X, S, Y>(step: (X, S) -> (Y, S), logProb: (Y, X) -> real, u: nat,
                                           prev: Scored<S>, next: Scored<S>, pass: Scored<S>,
                                           last: seq<seq<X>>, t: nat, i: nat)
    requires |last| == |prev.slots| && t < |prev.slots| && i < u
    requires ValidationBatch(step, logProb, u, prev.slots, last) == Success(next)
    requires prev.terms + next.terms <= pass.terms
    ensures u <= |last[t]| && i + 1 < |last[t]|
    ensures |prev.terms| + BlockIndex(t, u, i) < |pass.terms|
    ensures pass.terms[|prev.terms| + BlockIndex(t, u, i)] ==
              logProb(OutputAt(step, prev.slots[t], last[t][..u], i), last[t][i + 1])
  {
    ValidationBatchTerm(step, logProb, u, prev.slots, last, next, t, i);
    AppendIndex(prev.terms, next.terms, BlockIndex(t, u, i));
    assert pass.terms[|prev.terms| + BlockIndex(t, u, i)] ==
           (prev.terms + next.terms)[|prev.terms| + BlockIndex(t, u, i)];
  }

  /** The terms a batch adds after a pass over `init`, in terms of the whole stream
      `all = init + [last]`: term `t*u + i` of batch `b = |init|` scores the output at
      step `b*u + i` of one unroll over tower `t`'s stream. */
  lemma ValidationBatchTermInStream<X, S, Y>(step: (X, S) -> (Y, S), logProb: (Y, X) -> real, u: nat,
                                           slots: seq<S>, init: seq<seq<seq<X>>>, last: seq<seq<X>>,
                                           all: seq<seq<seq<X>>>, prev: Scored<S>, next: Scored<S>,
                                           pass: Scored<S>, t: nat, i: nat)
    requires PerTower(init, |slots|) && |last| == |slots| && t < |slots| && i < u
    requires all == init + [last]
    requires ValidationPhase(step, logProb, u, slots, init) == Success(prev)
    requires ValidationBatch(step, logProb, u, prev.slots, last) == Success(next)
    requires prev.terms + next.terms <= pass.terms
    ensures StreamFed(all, t, u) && i + 1 < |last[t]|
    ensures BlockIndex(|init|, u, i) < |Stream(all, t, u)|
    ensures BlockIndex(|init|, |slots| * u, BlockIndex(t, u, i)) < |pass.terms|
    ensures pass.terms[BlockIndex(|init|, |slots| * u, BlockIndex(t, u, i))] ==
              logProb(OutputAt(step, slots[t], Stream(all, t, u), BlockIndex(|init|, u, i)), last[t][i + 1])
  {
    assert ValidationFed(last, u);
    ValidationPassIsOneUnroll(step, logProb, u, slots, init, t, prev);
    StreamOutputSnoc(step, slots[t], init, last, all, t, u, i);
    var o := OutputAt(step, slots[t], Stream(all, t, u), BlockIndex(|init|, u, i));
    assert o == OutputAt(step, prev.slots[t], last[t][..u], i);
    var k := BlockIndex(|init|, |slots| * u, BlockIndex(t, u, i));
    assert k == |prev.terms| + BlockIndex(t, u, i);
    ValidationBatchTermInPass(step, logProb, u, prev, next, pass, last, t, i);
    assert pass.terms[k] == pass.terms[|prev.terms| + BlockIndex(t, u, i)];
  }

  /** Step `b*u + i` of one unroll over the stream of `b + 1` batches is step `i` of the
      last batch's inputs, started from the state the first `b` batches left. */
  lemma StreamOutputSnoc<X, S, Y>(step: (X, S) -> (Y, S), s: S, init: seq<seq<seq<X>>>, last: seq<seq<X>>,
                                  all: seq<seq<seq<X>>>, t: nat, u: nat, i: nat)
    requires StreamFed(init, t, u) && t < |last| && u <= |last[t]| && i < u
    requires all == init + [last]
    ensures StreamFed(all, t, u)
    ensures BlockIndex(|init|, u, i) < |Stream(all, t, u)|
    ensures OutputAt(step, s, Stream(all, t, u), BlockIndex(|init|, u, i)) ==
              OutputAt(step, StateAfter(step, s, Stream(init, t, u), |Stream(init, t, u)|), last[t][..u], i)
  {
    var xs := Stream(init, t, u);
    var ys := last[t][..u];
    StreamLength(init, t, u);
    StreamSnoc(init, last, all, t, u);
    assert BlockIndex(|init|, u, i) == |xs| + i;
    OutputAtAppend(step, s, xs, ys, i);
  }

  /** Tower `t`'s stream over `init + [last]` is its stream over `init` followed by its
      `u` inputs from `last`. */
  lemma StreamSnoc<X>(init: seq<seq<seq<X>>>, last: seq<seq<X>>, all: seq<seq<seq<X>>>, t: nat, u: nat)
    requires StreamFed(init, t, u) && t < |last| && u <= |last[t]|
    requires all == init + [last]
    ensures StreamFed(all, t, u)
    ensures Stream(all, t, u) == Stream(init, t, u) + last[t][..u]
  {
    assert all[..|all| - 1] == init;
    forall b | 0 <= b < |all|
      ensures t < |all[b]| && u <= |all[b][t]|
    {
      if b < |init| {
        assert all[b] == init[b];
      }
    }
  }

  /** A successful pass runs every batch `b` successfully after a successful pass over
      the batches before it, and the terms of both come first in the pass. */
  lemma {:induction false} ValidationPhaseAt<X, S, Y>(step: (X, S) -> (Y, S), logProb: (Y, X) -> real, u: nat,
                                                     slots: seq<S>, batches: seq<seq<seq<X>>>, pass: Scored<S>, b: nat)
    requires PerTower(batches, |slots|) && b < |batches|
    requires ValidationPhase(step, logProb, u, slots, batches) == Success(pass)
    ensures PerTower(batches[..b], |slots|)
    ensures var prev := ValidationPhase(step, logProb, u, slots, batches[..b]);
            prev.Success? && |prev.value.slots| == |slots| &&
            var next := ValidationBatch(step, logProb, u, prev.value.slots, batches[b]);
            next.Success? && prev.value.terms + next.value.terms <= pass.terms
    decreases |batches|
  {
    if b + 1 < |batches| {
      var j := |batches| - 1;
      ValidationPhaseSplit(step, logProb, u, slots, batches, pass, j);
      var init := batches[..j];
      var prev := ValidationPhase(step, logProb, u, slots, init).value;
      ValidationPhaseAt(step, logProb, u, slots, init, prev, b);
      assert init[..b] == batches[..b];
      assert init[b] == batches[b];
    } else {
      ValidationPhaseSplit(step, logProb, u, slots, batches, pass, b);
    }
  }

  /** Which log-probability every term of a pass is: term `t*u + i` of batch `b` (batch
      blocks of `towers × u` terms laid end to end) scores tower `t`'s output at step
      `b*u + i` of one unroll over the tower's whole validation stream up to that batch,
      against batch element `i + 1`. State persists across batches, so later batches see
      the state the earlier ones left. */
  lemma ValidationTermAt<X, S, Y>(step: (X, S) -> (Y, S), logProb: (Y, X) -> real, u: nat,
                                  slots: seq<S>, batches: seq<seq<seq<X>>>, pass: Scored<S>,
                                  b: nat, t: nat, i: nat)
    requires PerTower(batches, |slots|) && b < |batches| && t < |slots| && i < u
    requires ValidationPhase(step, logProb, u, slots, batches) == Success(pass)
    ensures StreamFed(batches[..b + 1], t, u) && i + 1 < |batches[b][t]|
    ensures BlockIndex(b, u, i) < |Stream(batches[..b + 1], t, u)|
    ensures BlockIndex(b, |slots| * u, BlockIndex(t, u, i)) < |pass.terms|
    ensures pass.terms[BlockIndex(b, |slots| * u, BlockIndex(t, u, i))] ==
              logProb(OutputAt(step, slots[t], Stream(batches[..b + 1], t, u), BlockIndex(b, u, i)),
                      batches[b][t][i + 1])
  {
    var init := batches[..b];
    ValidationPhaseAt(step, logProb, u, slots, batches, pass, b);
    var prev := ValidationPhase(step, logProb, u, slots, init).value;
    var next := ValidationBatch(step, logProb, u, prev.slots, batches[b]).value;
    TakeSnoc(batches, b);
    ValidationBatchTermInStream(step, logProb, u, slots, init, batches[b], batches[..b + 1], prev, next, pass, t, i);
  }

  /** The first `b + 1` elements are the first `b` followed by element `b`. */
  lemma TakeSnoc<T>(xs: seq<T>, b: nat)
    requires b < |xs|
    ensures |xs[..b]| == b && xs[..b + 1] == xs[..b] + [xs[b]]
  {
  }

  /** Perplexity `2 ** (-sum / N)` with `N = towers × u × batches`; Python's `/` raises
      ZeroDivisionError when `N` is zero. */
  function Perplexity(pow2: real -> real, towers: nat, u: nat, batches: nat, logProbSum: real): (r: Result<real>)
    ensures r.Failure? <==> towers == 0 || u == 0 || batches == 0
    ensures r.Failure? ==> r.error == ZeroDivision
  {
    var n := towers * u * batches;
    if n == 0 then Failure(ZeroDivision) else Success(pow2(-logProbSum / (n as real)))
  }

  /** The denominator counts the summed terms: for the `towers × u × batches` terms a
      successful validation pass collects (`ValidationPhase`), the perplexity is `2` to
      the mean negative log-probability, and it fails exactly when no term was summed. */
  lemma PerplexityAveragesTerms(pow2: real -> real, towers: nat, u: nat, batches: nat, terms: seq<real>)
    requires |terms| == batches * (towers * u)
    ensures Perplexity(pow2, towers, u, batches, Sum(terms)) ==
              if terms == [] then Failure(ZeroDivision) else Success(pow2(-Sum(terms) / (|terms| as real)))
  {
    ProductZero(towers, u, batches);
  }

  lemma ProductZero(a: nat, b: nat, c: nat)
    ensures a * b * c == 0 <==> a == 0 || b == 0 || c == 0
    ensures a * b * c == c * (a * b)
  {
    if a > 0 && b > 0 && c > 0 {
      assert a * b > 0;
      assert a * b * c > 0;
    }
  }

  /** What an epoch needs besides an assigned previous perplexity: towers, a training
      phase that succeeds (no batches, or a positive summary frequency, a reachable op
      and long enough batches), long enough validation batches, and a nonzero
      perplexity denominator. */
  predicate EpochOk<X>(h: Hyper, trainBatches: seq<seq<seq<X>>>, validBatches: seq<seq<seq<X>>>)
    requires h.optimizationFrequency > 0
  {
    h.numTowers > 0 &&
    (trainBatches == [] ||
     (h.summaryFrequency > 0 &&
      Graph.ReachableWindow(h.numTrainingUnfoldings, h.optimizationFrequency).Some? &&
      AllFed(trainBatches, h.numTrainingUnfoldings + 1))) &&
    PassFed(validBatches, h.numValidationUnfoldings) &&
    h.numValidationUnfoldings > 0 && validBatches != []
  }

  /** One epoch (`epoch` counts from 0): reset and run the training batches, reset and
      run the validation batches under the trained parameters, turn the collected terms
      into a perplexity and let the policy decide the next rate. Reading
      `training_batches[0]` raises IndexError when there are no towers. */
  function Epoch<P, X, S, Y>(cell: Cell<P, X, S, Y>, ext: Externals<P, X, Y>, h: Hyper, decay: real,
                             trainBatches: seq<seq<seq<X>>>, validBatches: seq<seq<seq<X>>>,
                             epoch: nat, st: TrainState<P>): (r: Result<TrainState<P>>)
    requires h.optimizationFrequency > 0
    requires PerTower(trainBatches, h.numTowers) && PerTower(validBatches, h.numTowers)
    ensures h.numTowers == 0 ==> r == Failure(IndexOutOfRange)
    ensures r.Success? <==> EpochOk(h, trainBatches, validBatches) && (epoch == 0 || st.rate.lastPerplexity.Some?)
    ensures r.Success? ==> r.value.rate.lastPerplexity.Some?
    ensures r.Success? ==> |r.value.history| == |st.history| + 1 && r.value.history[..|st.history|] == st.history
    ensures r.Success? ==>
              var trained := TrainingPhase(cell, ext, h.numTrainingUnfoldings, h.optimizationFrequency,
                                           h.summaryFrequency, st.rate.learningRate,
                                           Progress(st.params, ResetTraining(cell, h)), trainBatches);
              trained.Success? && r.value.params == trained.value.params &&
              var scored := ValidationPhase(Bind(cell, r.value.params), ext.logProb, h.numValidationUnfoldings,
                                            ResetValidation(cell, h), validBatches);
              scored.Success? &&
              Perplexity(ext.pow2, h.numTowers, h.numValidationUnfoldings, |validBatches|, Sum(scored.value.terms)) ==
                Success(r.value.history[|st.history|])
    ensures r.Success? ==> Decide(epoch, st.rate, decay, r.value.history[|st.history|]) == Success(r.value.rate)
    ensures r.Failure? && r.error == UndefinedName ==> epoch > 0 && st.rate.lastPerplexity.None?
    ensures h.numTowers > 0 ==>
              var trained := TrainingPhase(cell, ext, h.numTrainingUnfoldings, h.optimizationFrequency,
                                           h.summaryFrequency, st.rate.learningRate,
                                           Progress(st.params, ResetTraining(cell, h)), trainBatches);
              var u := h.numValidationUnfoldings;
              (trained.Failure? ==> r == Failure(trained.error)) &&
              (trained.Success? && !PassFed(validBatches, u) ==> r == Failure(IndexOutOfRange)) &&
              (trained.Success? && PassFed(validBatches, u) && (u == 0 || validBatches == []) ==>
                 r == Failure(ZeroDivision))
    ensures EpochOk(h, trainBatches, validBatches) && epoch > 0 && st.rate.lastPerplexity.None? ==>
              r == Failure(UndefinedName)
  {
    if h.numTowers == 0 then Failure(IndexOutOfRange)
    else
      var trained :- TrainingPhase(cell, ext, h.numTrainingUnfoldings, h.optimizationFrequency, h.summaryFrequency,
                                   st.rate.learningRate, Progress(st.params, ResetTraining(cell, h)), trainBatches);
      var scored :- ValidationPhase(Bind(cell, trained.params), ext.logProb, h.numValidationUnfoldings,
                                    ResetValidation(cell, h), validBatches);
      var perplexity :- Perplexity(ext.pow2, h.numTowers, h.numValidationUnfoldings, |validBatches|,
                                   Sum(scored.terms));
      var rate :- Decide(epoch, st.rate, decay, perplexity);
      assert (st.history + [perplexity])[..|st.history|] == st.history;
      Success(TrainState(trained.params, rate, st.history + [perplexity]))
  }

  /** Epochs `0 .. k - 1`, starting from `start` with no perplexity recorded yet. */
  function Epochs<P, X, S, Y>(cell: Cell<P, X, S, Y>, ext: Externals<P, X, Y>, h: Hyper, decay: real,
                              trainBatches: seq<seq<seq<X>>>, validBatches: seq<seq<seq<X>>>,
                              start: TrainState<P>, k: nat): (r: Result<TrainState<P>>)
    requires h.optimizationFrequency > 0
    requires PerTower(trainBatches, h.numTowers) && PerTower(validBatches, h.numTowers)
    requires start.history == [] && start.rate.lastPerplexity.None?
    ensures r.Success? <==> k == 0 || EpochOk(h, trainBatches, validBatches)
    ensures r.Success? && k > 0 ==> r.value.rate.lastPerplexity.Some?
    ensures r.Success? ==> |r.value.history| == k
    ensures r.Success? ==> Schedule(start.rate.learningRate, decay, r.value.history) == Success(r.value.rate)
    ensures r.Failure? ==> r.error != UndefinedName
    ensures k > 0 && r.Failure? ==> r == Epoch(cell, ext, h, decay, trainBatches, validBatches, 0, start)
    decreases k
  {
    if k == 0 then Success(start)
    else
      var prev := Epochs(cell, ext, h, decay, trainBatches, validBatches, start, k - 1);
      if prev.Failure? then prev
      else
        var next := Epoch(cell, ext, h, decay, trainBatches, validBatches, k - 1, prev.value);
        if next.Success? then
          assert next.value.history[..k - 1] == prev.value.history;
          next
        else
          next
  }

  /** A successful run of `k = j + 1` epochs is epoch `j` run from the state a
      successful run of `j` epochs leaves. */
  lemma EpochsStep<P, X, S, Y>(cell: Cell<P, X, S, Y>, ext: Externals<P, X, Y>, h: Hyper, decay: real,
                               trainBatches: seq<seq<seq<X>>>, validBatches: seq<seq<seq<X>>>, start: TrainState<P>,
                               k: nat, j: nat)
    requires h.optimizationFrequency > 0
    requires PerTower(trainBatches, h.numTowers) && PerTower(validBatches, h.numTowers)
    requires start.history == [] && start.rate.lastPerplexity.None?
    requires k == j + 1 && Epochs(cell, ext, h, decay, trainBatches, validBatches, start, k).Success?
    ensures var prev := Epochs(cell, ext, h, decay, trainBatches, validBatches, start, j);
            prev.Success? && |prev.value.history| == j &&
            Epochs(cell, ext, h, decay, trainBatches, validBatches, start, k) ==
              Epoch(cell, ext, h, decay, trainBatches, validBatches, j, prev.value)
  {
  }

  /** One more epoch keeps the earlier history. */
  lemma EpochsKeepHistory<P, X, S, Y>(cell: Cell<P, X, S, Y>, ext: Externals<P, X, Y>, h: Hyper, decay: real,
                                      trainBatches: seq<seq<seq<X>>>, validBatches: seq<seq<seq<X>>>,
                                      start: TrainState<P>, k: nat, j: nat)
    requires h.optimizationFrequency > 0
    requires PerTower(trainBatches, h.numTowers) && PerTower(validBatches, h.numTowers)
    requires start.history == [] && start.rate.lastPerplexity.None?
    requires k == j + 1 && Epochs(cell, ext, h, decay, trainBatches, validBatches, start, k).Success?
    ensures var prev := Epochs(cell, ext, h, decay, trainBatches, validBatches, start, j);
            prev.Success? &&
            Epochs(cell, ext, h, decay, trainBatches, validBatches, start, k).value.history[..j] == prev.value.history
  {
  }

  /** Entry `e` of a successful run of `k` epochs is already entry `e` of the run of
      `e + 1` epochs. */
  lemma {:induction false} EpochsPrefix<P, X, S, Y>(cell: Cell<P, X, S, Y>, ext: Externals<P, X, Y>, h: Hyper,
                                                    decay: real, trainBatches: seq<seq<seq<X>>>,
                                                    validBatches: seq<seq<seq<X>>>, start: TrainState<P>,
                                                    k: nat, e: nat)
    requires h.optimizationFrequency > 0
    requires PerTower(trainBatches, h.numTowers) && PerTower(validBatches, h.numTowers)
    requires start.history == [] && start.rate.lastPerplexity.None?
    requires e < k && Epochs(cell, ext, h, decay, trainBatches, validBatches, start, k).Success?
    ensures var upto := Epochs(cell, ext, h, decay, trainBatches, validBatches, start, e + 1);
            upto.Success? && |upto.value.history| == e + 1 &&
            Epochs(cell, ext, h, decay, trainBatches, validBatches, start, k).value.history[e] == upto.value.history[e]
    decreases k
  {
    if e + 1 < k {
      EpochsKeepHistory(cell, ext, h, decay, trainBatches, validBatches, start, k, k - 1);
      EpochsPrefix(cell, ext, h, decay, trainBatches, validBatches, start, k - 1, e);
      var all := Epochs(cell, ext, h, decay, trainBatches, validBatches, start, k).value.history;
      assert all[e] == all[..k - 1][e];
    } else {
      EpochsSame(cell, ext, h, decay, trainBatches, validBatches, start, k, e + 1);
    }
  }

  /** Runs of equally many epochs are the same run. */
  lemma EpochsSame<P, X, S, Y>(cell: Cell<P, X, S, Y>, ext: Externals<P, X, Y>, h: Hyper, decay: real,
                               trainBatches: seq<seq<seq<X>>>, validBatches: seq<seq<seq<X>>>, start: TrainState<P>,
                               k: nat, m: nat)
    requires h.optimizationFrequency > 0
    requires PerTower(trainBatches, h.numTowers) && PerTower(validBatches, h.numTowers)
    requires start.history == [] && start.rate.lastPerplexity.None?
    requires k == m
    ensures Epochs(cell, ext, h, decay, trainBatches, validBatches, start, k) ==
            Epochs(cell, ext, h, decay, trainBatches, validBatches, start, m)
  {
  }

  /** `train`: construct the graph (ZeroDivisionError when the optimization frequency is
      zero), then run `numEpochs` epochs from the initial rate. The learning rate after
      the run is the schedule applied to the observed perplexities, and the unassigned
      previous perplexity is never read. */
  function Train<P, X, S, Y>(cell: Cell<P, X, S, Y>, ext: Externals<P, X, Y>, h: Hyper, rate0: real, decay: real,
                             params0: P, numEpochs: nat,
                             trainBatches: seq<seq<seq<X>>>, validBatches: seq<seq<seq<X>>>): (r: Result<TrainState<P>>)
    requires PerTower(trainBatches, h.numTowers) && PerTower(validBatches, h.numTowers)
    ensures h.optimizationFrequency == 0 ==> r == Failure(ZeroDivision)
    ensures r.Success? <==>
              h.optimizationFrequency > 0 && (numEpochs == 0 || EpochOk(h, trainBatches, validBatches))
    ensures r.Success? ==> |r.value.history| == numEpochs
    ensures r.Success? ==> Schedule(rate0, decay, r.value.history) == Success(r.value.rate)
    ensures r.Failure? ==> r.error != UndefinedName
    ensures h.optimizationFrequency > 0 && numEpochs > 0 && r.Failure? ==>
              r == Epoch(cell, ext, h, decay, trainBatches, validBatches, 0,
                         TrainState(params0, RateState(rate0, None), []))
  {
    if NumWindows(h.numTrainingUnfoldings, h.optimizationFrequency).Failure? then Failure(ZeroDivision)
    else
      var start := TrainState(params0, RateState(rate0, None), []);
      Epochs(cell, ext, h, decay, trainBatches, validBatches, start, numEpochs)
  }

  /** Where each recorded perplexity comes from: entry `e` of a successful run's history
      is the perplexity of the validation pass run, from reset validation slots, under
      the parameters that epoch `e`'s training phase produced from the state the first
      `e` epochs left, at the learning rate in force then. */
  lemma TrainRecordsValidationPerplexities<P, X, S, Y>(cell: Cell<P, X, S, Y>, ext: Externals<P, X, Y>, h: Hyper,
                                                       rate0: real, decay: real, params0: P, numEpochs: nat,
                                                       trainBatches: seq<seq<seq<X>>>,
                                                       validBatches: seq<seq<seq<X>>>, e: nat)
    requires PerTower(trainBatches, h.numTowers) && PerTower(validBatches, h.numTowers)
    requires e < numEpochs
    requires Train(cell, ext, h, rate0, decay, params0, numEpochs, trainBatches, validBatches).Success?
    ensures h.optimizationFrequency > 0
    ensures var before := Epochs(cell, ext, h, decay, trainBatches, validBatches,
                                 TrainState(params0, RateState(rate0, None), []), e);
            before.Success? &&
            var trained := TrainingPhase(cell, ext, h.numTrainingUnfoldings, h.optimizationFrequency,
                                         h.summaryFrequency, before.value.rate.learningRate,
                                         Progress(before.value.params, ResetTraining(cell, h)), trainBatches);
            trained.Success? &&
            var scored := ValidationPhase(Bind(cell, trained.value.params), ext.logProb, h.numValidationUnfoldings,
                                          ResetValidation(cell, h), validBatches);
            scored.Success? &&
            Perplexity(ext.pow2, h.numTowers, h.numValidationUnfoldings, |validBatches|, Sum(scored.value.terms)) ==
              Success(Train(cell, ext, h, rate0, decay, params0, numEpochs, trainBatches, validBatches)
                        .value.history[e])
  {
    var start := TrainState(params0, RateState(rate0, None), []);
    EpochsPrefix(cell, ext, h, decay, trainBatches, validBatches, start, numEpochs, e);
    EpochsStep(cell, ext, h, decay, trainBatches, validBatches, start, e + 1, e);
  }

  /** Across a whole run the rate is the initial rate times the decay factor once for
      every epoch whose perplexity regressed. */
  lemma TrainRateClosedForm<P, X, S, Y>(cell: Cell<P, X, S, Y>, ext: Externals<P, X, Y>, h: Hyper,
                                        rate0: real, decay: real, params0: P, numEpochs: nat,
                                        trainBatches: seq<seq<seq<X>>>, validBatches: seq<seq<seq<X>>>)
    requires PerTower(trainBatches, h.numTowers) && PerTower(validBatches, h.numTowers)
    requires Train(cell, ext, h, rate0, decay, params0, numEpochs, trainBatches, validBatches).Success?
    ensures var st := Train(cell, ext, h, rate0, decay, params0, numEpochs, trainBatches, validBatches).value;
            st.rate.learningRate == Decayed(rate0, decay, Regressions(st.history))
  {
    var st := Train(cell, ext, h, rate0, decay, params0, numEpochs, trainBatches, validBatches).value;
    ScheduleClosedForm(rate0, decay, st.history);
  }
}
