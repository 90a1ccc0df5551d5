/** The two recurrent cells behind one interface. A cell is an opaque step
    `(params, input, state) -> (emitted output, new state)` together with the zero state
    that reset installs. The gate and activation arithmetic is not modelled: each cell
    is built from uninterpreted functions of the shared parameters. */
module Cells {
  import opened Tensors

  /** A cell variant: the per-step transition the tower loop calls, and the zero state
      of a given number of rows and hidden width. */
  datatype Cell<!P, !X, !S, Y> = Cell(step: (P, X, S) -> (Y, S), zero: (nat, nat) -> S)

  /** Simple recurrent network: the state is one hidden tensor. `transition` stands for
      `sigmoid(x·A + h·R)` and `readout` for `hidden·U`; the step returns the readout as
      its output and the new hidden tensor as its state, and the tower appends that
      output unchanged. */
  function Srn<P, X, Y>(transition: (P, X, Tensor) -> Tensor, readout: (P, Tensor) -> Y): (c: Cell<P, X, Tensor, Y>)
    ensures forall rows, cols :: HasShape(c.zero(rows, cols), rows, cols) && IsZero(c.zero(rows, cols))
  {
    Cell((p, x, h) => var h' := transition(p, x, h); (readout(p, h'), h'),
         (rows, cols) => Zeros(rows, cols))
  }

  /** The LSTM's persisted pair: the previous output `h` and the cell state `c`. */
  datatype LstmState = LstmState(output: Tensor, cell: Tensor)

  /** LSTM: `gates` stands for `_lstm_cell(x, h, c)`, returning the new (output, state)
      pair; the tower then projects the new output onto the vocabulary with
      `project` (`xw_plus_b(output, W, W_bias)`) before appending it. */
  function Lstm<P, X, Y>(gates: (P, X, Tensor, Tensor) -> (Tensor, Tensor),
                         project: (P, Tensor) -> Y): (c: Cell<P, X, LstmState, Y>)
    ensures forall rows, cols :: var z := c.zero(rows, cols);
              HasShape(z.output, rows, cols) && IsZero(z.output) && HasShape(z.cell, rows, cols) && IsZero(z.cell)
  {
    Cell((p, x, s: LstmState) => var n := gates(p, x, s.output, s.cell); (project(p, n.0), LstmState(n.0, n.1)),
         (rows, cols) => LstmState(Zeros(rows, cols), Zeros(rows, cols)))
  }

  /** The SRN step's state is the new hidden tensor, and its output is a function of that
      new hidden tensor alone: two steps reaching the same hidden tensor emit the same
      output, whatever input and previous state led there. */
  lemma SrnOutputFollowsNewHidden<P, X, Y>(transition: (P, X, Tensor) -> Tensor, readout: (P, Tensor) -> Y,
                                          p: P, x1: X, h1: Tensor, x2: X, h2: Tensor)
    ensures Srn(transition, readout).step(p, x1, h1).1 == transition(p, x1, h1)
    ensures Srn(transition, readout).step(p, x1, h1).1 == Srn(transition, readout).step(p, x2, h2).1 ==>
              Srn(transition, readout).step(p, x1, h1).0 == Srn(transition, readout).step(p, x2, h2).0
  {
  }

  /** The LSTM step threads both tensors of `_lstm_cell`'s result into the state, and the
      emitted output is the projection of the new output tensor, not the raw tensor. */
  lemma LstmOutputIsProjected<P, X, Y>(gates: (P, X, Tensor, Tensor) -> (Tensor, Tensor), project: (P, Tensor) -> Y,
                                       p: P, x: X, s: LstmState)
    ensures Lstm(gates, project).step(p, x, s).1 ==
              LstmState(gates(p, x, s.output, s.cell).0, gates(p, x, s.output, s.cell).1)
    ensures Lstm(gates, project).step(p, x, s).0 == project(p, Lstm(gates, project).step(p, x, s).1.output)
  {
  }
}
