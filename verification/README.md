# Multi-tower RNN trainer orchestration, modelled in Dafny

This project models the control logic that the SRN trainer (`py/srn.py`) and the LSTM
trainer (`py/lstm.py`) share. Both trainers do the same things around their TensorFlow
calls:

- unroll a recurrent cell across windows of `optimization_frequency` steps, on several
  towers;
- persist each tower's recurrent state between calls, and zero it at the start of every
  training and validation phase;
- join the towers' outputs and labels tower by tower for one optimizer step;
- score a validation pass into a perplexity;
- decay the learning rate when the perplexity gets worse.

The two source files duplicate this logic. The model states it once, generic over the
cell variant:

- `Cells.Cell<P, X, S, Y>` is an opaque step `(params, input, state) -> (output, state)`
  together with the zero state that reset installs.
- `Cells.Srn` carries one hidden tensor. Its step emits the readout of the new hidden
  tensor.
- `Cells.Lstm` carries an `(output, cell)` pair. The tower projects the new output
  tensor before emitting it.

Persisted per-tower state is an explicit slot table (`seq<S>`, indexed by tower). It is
passed by value into every tower call and returned with that tower's slot overwritten.
The parameters, the learning rate and the previous epoch's perplexity are threaded
explicitly through the epoch loop. The previous perplexity is an `Option`: `None` is the
Python local that has not yet been assigned.

Modules, leaves first:

- `Outcomes` (outcomes.dfy): `Option`, `Result`, and the Python exceptions the control
  logic can raise.
- `Layout` (layout.dfy): sums, the tower-major concatenation (`Flatten`), block indices
  and their layout lemmas.
- `Windows` (windows.dfy): window index arithmetic. Window `i` feeds batch element
  `i*f + j` and labels it with element `i*f + j + 1`.
- `Unroll` (unroll.dfy): the fold of a step function over inputs. It has an independent
  reference definition (`StateAfter`, `OutputAt`) and the lemmas that two unrolls with
  the state persisted between them equal one unroll over the concatenated inputs.
- `Tensors`, `Cells` (tensors.dfy, cells.dfy): zero tensors and the two cell variants.
- `Towers` (towers.dfy): the training tower, the validation tower, the loops over towers
  and the tower-major join.
- `Graph` (graph.dfy): the graph-construction window loop.
- `Policy` (policy.dfy): the learning-rate rule and its closed form.
- `Trainer` (trainer.dfy): resets, training batch and phase, validation batch and phase,
  perplexity, epoch, and the epoch loop of `train`.

One quirk of the source is modelled as written. The construction loop builds the ops of
every window `i < n // f`. But it assigns `self._cost` and `self._optimize` anew on each
iteration, so `train` can only ever run the last window. As a result:

- each training batch runs window `n // f - 1` on every tower (`Graph.ReachableWindow`,
  `Trainer.TrainingBatch`);
- when `n < f` there is no such op at all. The first training batch `train` runs then
  fails with an AttributeError if it holds `n + 1` elements per tower; a shorter batch
  fails with an IndexError first, while it is fed. With no training batches nothing
  reads the op and the training phase succeeds.

Other behaviours of the code that the model follows:

- A window width `f` that does not divide `n` is not rejected. The batch elements past
  `(n // f) * f` are silently ignored; see `Windows.TailNeverUsed`. Only `f == 0` fails,
  with ZeroDivisionError.
- The SRN cell computes its own readout and the tower appends it unchanged. Only the
  LSTM tower projects the cell's output.
- The validation labels are batch element `i + 1` for `i < num_validation_unfoldings`,
  so validation needs `num_validation_unfoldings + 1` elements per tower. A shorter batch
  is an IndexError.
- The no-decay epoch is `epoch == 0`, the first one.
- The summary test `(batch + 1) % summary_frequency` runs after every training batch, so
  `summary_frequency == 0` raises ZeroDivisionError right after the first training batch
  that succeeds.

## Model

| member | source | states |
|---|---|---|
| Windows.NumWindows | py/lstm.py:93 | The construction loop runs `⌊n / f⌋` windows: the count `w` satisfies `w*f <= n < w*f + f`. It fails with ZeroDivisionError exactly when `f` is zero. |
| Windows.WindowIndicesInSlots | py/lstm.py:192-194 | For every window `i < n // f` and step `j < f`, the input index is below the label index, and the label index is at most `n`. Both therefore lie inside the `n + 1` placeholders per tower (allocated at py/lstm.py:58). |
| Windows.LabelsShiftInputs | py/srn.py:151-153 | Label `j` of a window is the input of step `j + 1` (shift by one). The last label of window `i` is the first input of window `i + 1`. |
| Windows.InputIndicesExactly | py/lstm.py:193 | The indices fed to the cell by the windows built by the construction loop are exactly `0 .. (n // f) * f - 1`, in both directions. `train` runs only the last of these windows. |
| Windows.LabelIndicesExactly | py/lstm.py:194 | The indices used as labels by the windows built by the construction loop are exactly `1 .. (n // f) * f`, in both directions. |
| Windows.TailNeverUsed | py/srn.py:87 | When `f` does not divide `n`, batch elements past `(n // f) * f` are never cell inputs and never labels. |
| Unroll.Run | py/lstm.py:190-197 | The step loop emits one output per input. Which outputs and which final state it produces is stated by `Unroll.RunMatchesReference`. |
| Unroll.RunMatchesReference | py/lstm.py:190-197 | The step-by-step loop matches the reference definition. It ends in the state after all inputs, and output `k` is produced from the state reached after the first `k` inputs. |
| Unroll.StateAfterAppend | py/srn.py:168-178 | Persisting the state between two unrolls gives the same state as one unroll over the concatenated inputs. |
| Unroll.OutputAtAppend | py/srn.py:168-175 | An output of the second of two unrolls with the state persisted between them is the output at the shifted step of one unroll over the concatenated inputs. |
| Cells.SrnOutputFollowsNewHidden | py/srn.py:290-295 | The SRN step's new state is the transition's hidden tensor. Its output depends on that new hidden tensor alone: two steps that reach the same hidden tensor emit the same output. |
| Cells.LstmOutputIsProjected | py/lstm.py:195-197 | The LSTM step stores both tensors returned by `_lstm_cell` as its state. It emits the projection of the new output tensor, not the raw tensor. |
| Towers.TowerUnroll | py/lstm.py:205-223 | A validation tower call starts from its own slot and emits the reference outputs. It saves the final state to its own slot and leaves every other tower's slot unchanged. |
| Towers.TrainingTower | py/lstm.py:181-202 | A training tower call returns exactly `f` outputs and `f` labels. Label `j` is batch element `i*f + j + 1` and equals input `j + 1`. The outputs thread the state from the tower's own slot. The final state goes back to that slot only. |
| Towers.TrainingTowers | py/srn.py:93-94 | Running the towers one after another, each on the slot table the previous one left behind, gives each tower the result it would get from its own slot alone. No state leaks across towers. |
| Towers.TrainingWindow | py/lstm.py:102-108 | Outputs and labels are joined tower-major, each of length `towers × f`. Position `t*f + j` holds tower `t`'s output for step `j`, and the label of that same tower and step. |
| Towers.ValidationTowers | py/lstm.py:130-134 | Every tower unrolls all its validation inputs in one call, from and back to its own validation slot. |
| Layout.FlattenUniform | py/srn.py:95-101 | Concatenating equal-length per-tower lists gives length `towers × width`. Element `j` of tower `t` lands at `t*width + j`. |
| Tensors.Zeros | py/srn.py:83 | `tf.zeros([rows, cols])` has shape `rows × cols` and every entry zero. |
| Cells.Srn | py/srn.py:60-61 | The SRN zero state of any shape is an all-zero tensor of that shape. |
| Cells.Lstm | py/lstm.py:61-64 | The LSTM zero state holds two all-zero tensors of the requested shape. |
| Trainer.ResetTraining | py/lstm.py:87-90 | The training reset group gives one slot per tower, each the cell's zero state at `batch_size` rows. |
| Trainer.ResetValidation | py/lstm.py:124-127 | The validation reset group gives one slot per tower, each the cell's zero state at one row. |
| Trainer.SrnTrainingResetZeroes | py/srn.py:82-84 | The SRN training reset gives one slot per tower, each the zero `batch_size × hidden` tensor. |
| Trainer.SrnValidationResetZeroes | py/srn.py:117-119 | The SRN validation reset gives one slot per tower, each the zero `1 × hidden` tensor. |
| Trainer.LstmTrainingResetZeroes | py/lstm.py:87-90 | The LSTM training reset zeroes both saved tensors of every tower at `batch_size × hidden`. |
| Trainer.LstmValidationResetZeroes | py/lstm.py:124-127 | The LSTM validation reset zeroes both saved tensors of every tower at `1 × hidden`. |
| Graph.ReachableWindow | py/lstm.py:93-115 | The window `train` can run is the last one that fits in the `n + 1` batch elements. There is none exactly when window 0 does not fit (`n < f`). |
| Graph.BuildTrainingOps | py/srn.py:87-108 | Construction fails with ZeroDivisionError iff `f == 0`. Otherwise the ops of all `n // f` windows are built in order, but the optimizer attribute refers only to the last window (none if the loop never ran). |
| Trainer.TrainingBatch | py/lstm.py:267-280 | A batch fails with IndexError if some tower has at most `n` elements. It fails with AttributeError when no optimizer op was assigned. Otherwise each tower's slot becomes the state after the reachable window from its own saved state, and the optimizer receives the tower-major logits and labels under the shared parameters. |
| Trainer.TrainingPhase | py/srn.py:220-242 | The training batches of an epoch succeed iff there are none, or the summary frequency is positive, the reachable op exists and every batch is long enough. A first batch that is too short is an IndexError. A long enough first batch without an op is an AttributeError. With an op and frequency zero the first batch runs and the summary test raises ZeroDivisionError. With a positive frequency and an op, any short batch makes the phase an IndexError. |
| Trainer.TrainingStep | py/srn.py:221-242 | One loop iteration succeeds iff its batch succeeds and the summary frequency is positive; it then has the batch's parameters and slots. A failing batch keeps its own error; otherwise a zero frequency is ZeroDivisionError. |
| Trainer.TrainingPhaseLastBatch | py/srn.py:221-236 | In a successful phase, the last batch moves each tower's slot to the state after the reachable window, started from that tower's slot after the earlier batches, under the parameters in force then. The parameters receive one more optimizer step, on that window's tower-major logits and labels. |
| Trainer.TrainingPhaseAppend | py/lstm.py:264-286 | State and parameters persist across the batches of a phase: running `xs` and then `ys` from where `xs` left off is running `xs + ys`, and a failure inside `xs` is the failure of the whole. |
| Trainer.ValidationBatch | py/lstm.py:298-318 | A batch fails with IndexError iff some tower lacks element `u` (when `u > 0`). Otherwise it yields `towers × u` terms: term `t*u + i` scores tower `t`'s output for step `i` against batch element `i + 1`. Each tower's slot advances by its `u` inputs. |
| Trainer.ValidationPhase | py/srn.py:249-271 | A validation pass succeeds iff every batch is long enough; otherwise it is an IndexError. A successful pass collects exactly `towers × u × batches` terms and one slot per tower. Which log-probability each term is is stated by `Trainer.ValidationTermAt`. |
| Trainer.ValidationPhaseSplit | py/srn.py:251-271 | The definition's recursive step, unfolded once for use by the lemmas below: a successful pass over `j + 1` batches is a successful pass over the first `j`, followed by a successful batch `j` run from the slots they left. |
| Trainer.ValidationPhaseAt | py/srn.py:251-271 | Every batch `b` of a successful pass runs successfully from the slots left by the pass over batches `0 .. b - 1`. The terms of that shorter pass and of batch `b` are a prefix of the whole pass's terms. |
| Trainer.ValidationTermAt | py/lstm.py:291-318 | Term `b*(towers*u) + t*u + i` of a successful pass is the log-probability that tower `t`'s output at step `b*u + i` of one unroll over its validation inputs of batches `0 .. b` gives batch `b`'s element `i + 1`. The unroll starts from the tower's reset slot, because state persists across batches. |
| Trainer.ValidationPassIsOneUnroll | py/lstm.py:291-302 | Across a validation pass each tower's state persists. The final slot is the state of one unroll over all of that tower's inputs of the pass, started from its reset slot. |
| Trainer.Perplexity | py/lstm.py:320-322 | The perplexity divides by `N = towers × u × batches`. It raises ZeroDivisionError exactly when one of the three factors is zero. |
| Trainer.PerplexityAveragesTerms | py/srn.py:276-278 | For the `towers × u × batches` terms a successful pass collects, dividing by `N` averages exactly those terms. The perplexity is `2` to their mean negative log-probability, and fails iff no term was summed. |
| Policy.Decide | py/lstm.py:325-328 | Epoch 0 never decays, and the previous perplexity is not read there. From epoch 1 on the rate is multiplied by the decay iff the perplexity is strictly greater than the previous one, else left unchanged. Reading an unassigned previous perplexity is the only failure. The previous value is always overwritten. |
| Policy.Schedule | py/srn.py:282-284 | Over any run of epochs the rule never reads the unassigned previous perplexity. Afterwards the previous perplexity is the last epoch's. |
| Policy.ScheduleClosedForm | py/lstm.py:326-327 | The rate after a run is the initial rate decayed once per epoch `e >= 1` whose perplexity exceeds epoch `e - 1`'s. |
| Trainer.Epoch | py/lstm.py:254-328 | One epoch is an IndexError when there are no towers. It succeeds iff there are towers, the training phase succeeds, every validation batch is long enough, `u > 0`, there are validation batches, and a previous perplexity exists for `epoch > 0`. Each failure carries the source's exception: a failing training phase passes its own error on; a short validation batch is an IndexError; `u == 0` or no validation batches is a ZeroDivisionError; a missing previous perplexity from epoch 1 on is a NameError. On success the parameters are those of the training phase run from the reset training slots. The one appended perplexity is the perplexity of the validation pass run under those parameters from the reset validation slots. The new rate is the policy's decision on that perplexity. |
| Trainer.Epochs | py/srn.py:210-284 | A run of `k` epochs succeeds iff `k == 0` or one epoch's conditions hold (towers, a training phase that succeeds, long enough validation batches, `u > 0`, validation batches present). Epoch 0 assigns the previous perplexity, so the later epochs add no condition. After `k` epochs exactly `k` perplexities are recorded, a previous perplexity is assigned when `k > 0`, and the rate is the schedule applied to them. NameError never occurs. A failing run fails exactly as epoch 0 does from the starting state, since every later epoch repeats epoch 0's conditions. |
| Trainer.EpochsPrefix | py/lstm.py:254-328 | Entry `e` of a successful run of `k` epochs is entry `e` of the successful run of `e + 1` epochs: later epochs never rewrite an earlier perplexity. |
| Trainer.Train | py/lstm.py:226-328 | Training fails with ZeroDivisionError when `f == 0` (at graph construction). It succeeds iff `f > 0` and either there are no epochs or one epoch's conditions hold. On success it records one perplexity per epoch and ends at the schedule's rate for them. It never fails with NameError. With `f > 0` and at least one epoch, a failing run has the exception of epoch 0 run from the initial parameters and rate. |
| Trainer.TrainRecordsValidationPerplexities | py/lstm.py:254-322 | Entry `e` of a successful run's history is the validation perplexity of epoch `e`: the first `e` epochs succeed, the training phase run from their parameters and rate and from reset training slots succeeds, and the validation pass under the parameters it produces, from reset validation slots, succeeds with that perplexity. |
| Trainer.TrainRateClosedForm | py/srn.py:282-284 | After a successful run the learning rate is the initial rate times the decay, once for every epoch whose perplexity regressed. Those perplexities are the validation perplexities of `Trainer.TrainRecordsValidationPerplexities`. |
| Policy.ScheduleExample | py/lstm.py:326-328 | With decay 0.5 from rate 1.0 and perplexities 40, 50, 45: the rate stays 1.0 after epoch 0, halves after the regression in epoch 1, and stays 0.5 after the improvement in epoch 2. |

## Left out

- TensorFlow graph building, device placement, `session.run`, placeholders and feed dicts
  are foreign library calls. The graph is represented by the window its optimizer op
  refers to. Feeding is represented by its index checks. The per-tower variables are the
  explicit slot tables.
- The state saves sit under `tf.control_dependencies`. Whether TensorFlow actually runs
  those assignments is library behaviour this model cannot see, so the model performs
  the save the code intends.
- The gate and activation arithmetic, the output projection, softmax, cross-entropy,
  `log_prob` and `2 ** x` are floating-point numerics, so they are opaque functions: the
  `Cell` step, `project`, `Externals.logProb` and `Externals.pow2`. Perplexities are
  abstract reals.
- `compute_gradients`, `clip_by_global_norm` and `MomentumOptimizer` are library
  internals. They are the opaque `Externals.optimize`, which receives the shared
  parameters, the learning rate and the joined logits and labels. `clip_norm` and
  `momentum` are therefore not modelled.
- Weight initialisation (`truncated_normal`) is random floating point and is not
  modelled.
- The `print` logging is I/O and is not modelled. Of the `summary_frequency` report
  only its modulo test is modelled, with the ZeroDivisionError it raises.
- TrainingPhase: the report's extra `session.run(self._cost)` every `summary_frequency`
  batches is not modelled. It evaluates the towers again without an optimizer step.
  Under the intended state saves that would move the training slots on a second time,
  which the model does not do.
- The `batch_generator` and `log_prob` modules are not part of this model. The batches
  each generator yields after `reset_token_idx` are inputs, given per batch and per
  tower. The same list is used in every epoch, which relies on reset replaying the same
  batches. The batch count is the length of that list, standing for
  `training_batches[0].num_batches()`. Generator construction and its possible errors
  (such as fewer texts than towers) are not modelled.
- `py/batch_set.py` is an unfinished stub that refers to undefined names and is not part
  of this model.
- `vocabulary_size` only fixes placeholder and weight shapes, so it is not modelled.
- Hyper: the tower count, sizes, unfolding counts and frequencies are naturals, so
  negative arguments are not modelled. Python would accept them without raising: a
  negative `summary_frequency` makes the modulo test never raise, a negative
  `optimization_frequency` floors the window count below one so no op is built, and a
  negative `num_validation_unfoldings` makes `N` nonzero. The learning rate and the
  decay are reals, not the Python float fed into a float32 placeholder.
- `Cells.Srn` and `Cells.Lstm` state only the zero states. The step functions are the
  source's code, and what is promised about them is stated by
  `Cells.SrnOutputFollowsNewHidden` and `Cells.LstmOutputIsProjected`.
