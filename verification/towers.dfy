/** The tower runners. Each tower owns one persisted-state slot; a tower call starts
    from its own slot, unrolls the cell and saves the final state back to the same slot
    only. The slots of all towers are a sequence indexed by tower, passed by value. */
module Towers {
  import opened Layout
  import opened Unroll
  import opened Windows

  /** One tower call: what it emitted and the slot table after its save. */
  datatype TowerRun<S, Y> = TowerRun(outputs: seq<Y>, slots: seq<S>)

  /** A training tower call: outputs, labels and the slot table after its save. */
  datatype TrainingRun<X, S, Y> = TrainingRun(outputs: seq<Y>, labels: seq<X>, slots: seq<S>)

  /** Every tower call of one loop over the towers: per-tower outputs and labels, in
      tower order, and the slot table after all saves. */
  datatype TowersRun<X, S, Y> = TowersRun(outputs: seq<seq<Y>>, labels: seq<seq<X>>, slots: seq<S>)

  /** Unroll `xs` on tower `tower`: read the tower's slot, thread the state through
      every step, save the final state to the same slot. */
  function TowerUnroll<X, S, Y>(step: (X, S) -> (Y, S), slots: seq<S>, xs: seq<X>, tower: nat): (r: TowerRun<S, Y>)
    requires tower < |slots|
    ensures |r.outputs| == |xs| && |r.slots| == |slots|
    ensures forall j :: 0 <= j < |xs| ==> r.outputs[j] == OutputAt(step, slots[tower], xs, j)
    ensures r.slots[tower] == StateAfter(step, slots[tower], xs, |xs|)
    ensures forall t :: 0 <= t < |slots| && t != tower ==> r.slots[t] == slots[t]
  {
    var run := Run(step, slots[tower], xs);
    RunMatchesReference(step, slots[tower], xs);
    TowerRun(run.outputs, slots[tower := run.state])
  }

  /** `_training_tower(i, tower)`: unroll window `i` of the tower's batch and return
      the `f` outputs with their `f` labels. */
  function TrainingTower<X, S, Y>(step: (X, S) -> (Y, S), slots: seq<S>, data: seq<X>, i: nat, f: nat, tower: nat)
    : (r: TrainingRun<X, S, Y>)
    requires tower < |slots| && WindowFits(|data|, i, f)
    ensures |r.outputs| == f && |r.labels| == f && |r.slots| == |slots|
    ensures forall j :: 0 <= j < f ==> r.labels[j] == data[LabelIndex(i, f, j)]
    ensures forall j :: 0 <= j < f - 1 ==> r.labels[j] == WindowInputs(data, i, f)[j + 1]
    ensures forall j :: 0 <= j < f ==> r.outputs[j] == OutputAt(step, slots[tower], WindowInputs(data, i, f), j)
    ensures r.slots[tower] == StateAfter(step, slots[tower], WindowInputs(data, i, f), f)
    ensures forall t :: 0 <= t < |slots| && t != tower ==> r.slots[t] == slots[t]
  {
    LabelsShiftInputs(data, i, f);
    var run := TowerUnroll(step, slots, WindowInputs(data, i, f), tower);
    TrainingRun(run.outputs, WindowLabels(data, i, f), run.slots)
  }

  /** The tower loop of one training window, towers `0 .. k - 1` in order, each call
      seeing the slot table the previous call left behind. */
  function TrainingTowers<X, S, Y>(step: (X, S) -> (Y, S), slots: seq<S>, batch: seq<seq<X>>, i: nat, f: nat, k: nat)
    : (r: TowersRun<X, S, Y>)
    requires |batch| == |slots| && k <= |slots|
    requires forall t :: 0 <= t < |batch| ==> WindowFits(|batch[t]|, i, f)
    ensures |r.outputs| == k && |r.labels| == k && |r.slots| == |slots|
    ensures forall t :: 0 <= t < k ==> |r.outputs[t]| == f && r.labels[t] == WindowLabels(batch[t], i, f)
    ensures forall t, j :: 0 <= t < k && 0 <= j < f ==>
              r.outputs[t][j] == OutputAt(step, slots[t], WindowInputs(batch[t], i, f), j)
    ensures forall t :: 0 <= t < |slots| ==>
              r.slots[t] == if t < k then StateAfter(step, slots[t], WindowInputs(batch[t], i, f), f) else slots[t]
    decreases k
  {
    if k == 0 then TowersRun([], [], slots)
    else
      var prev := TrainingTowers(step, slots, batch, i, f, k - 1);
      var w := TrainingTower(step, prev.slots, batch[k - 1], i, f, k - 1);
      TowersRun(prev.outputs + [w.outputs], prev.labels + [w.labels], w.slots)
  }

  /** One optimization window over all towers: the per-tower outputs and labels joined
      tower by tower (all `f` of tower 0, then tower 1, ...). */
  function TrainingWindow<X, S, Y>(step: (X, S) -> (Y, S), slots: seq<S>, batch: seq<seq<X>>, i: nat, f: nat)
    : (r: TrainingRun<X, S, Y>)
    requires |batch| == |slots|
    requires forall t :: 0 <= t < |batch| ==> WindowFits(|batch[t]|, i, f)
    ensures |r.outputs| == |slots| * f && |r.labels| == |slots| * f && |r.slots| == |slots|
    ensures forall t, j :: 0 <= t < |slots| && 0 <= j < f ==>
              BlockIndex(t, f, j) < |slots| * f &&
              r.outputs[BlockIndex(t, f, j)] == OutputAt(step, slots[t], WindowInputs(batch[t], i, f), j) &&
              r.labels[BlockIndex(t, f, j)] == batch[t][LabelIndex(i, f, j)]
    ensures forall t :: 0 <= t < |slots| ==> r.slots[t] == StateAfter(step, slots[t], WindowInputs(batch[t], i, f), f)
  {
    var run := TrainingTowers(step, slots, batch, i, f, |slots|);
    FlattenUniform(run.outputs, f);
    FlattenUniform(run.labels, f);
    TrainingRun(Flatten(run.outputs), Flatten(run.labels), run.slots)
  }

  /** The tower loop of a validation batch, towers `0 .. k - 1` in order; tower `t`
      unrolls `inputs[t]` in full. */
  function ValidationTowers<X, S, Y>(step: (X, S) -> (Y, S), slots: seq<S>, inputs: seq<seq<X>>, k: nat)
    : (r: TowersRun<X, S, Y>)
    requires |inputs| == |slots| && k <= |slots|
    ensures |r.outputs| == k && r.labels == [] && |r.slots| == |slots|
    ensures forall t :: 0 <= t < k ==> |r.outputs[t]| == |inputs[t]|
    ensures forall t, j :: 0 <= t < k && 0 <= j < |inputs[t]| ==>
              r.outputs[t][j] == OutputAt(step, slots[t], inputs[t], j)
    ensures forall t :: 0 <= t < |slots| ==>
              r.slots[t] == if t < k then StateAfter(step, slots[t], inputs[t], |inputs[t]|) else slots[t]
    decreases k
  {
    if k == 0 then TowersRun([], [], slots)
    else
      var prev := ValidationTowers(step, slots, inputs, k - 1);
      var w := TowerUnroll(step, prev.slots, inputs[k - 1], k - 1);
      TowersRun(prev.outputs + [w.outputs], [], w.slots)
  }

  /** Every tower's slot holds `zero`: the reset groups. */
  function ResetSlots<S>(towers: nat, zero: S): (r: seq<S>)
    ensures |r| == towers
    ensures forall t :: 0 <= t < towers ==> r[t] == zero
  {
    seq(towers, _ => zero)
  }
}
