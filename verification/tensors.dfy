/** The persisted recurrent tensors, as far as the orchestration sees them: a
    rows × columns grid that reset fills with zeros. */
module Tensors {

  datatype Tensor = Tensor(entries: seq<seq<real>>)

  predicate HasShape(t: Tensor, rows: nat, cols: nat)
  {
    |t.entries| == rows && forall r :: 0 <= r < rows ==> |t.entries[r]| == cols
  }

  predicate IsZero(t: Tensor)
  {
    forall r, c :: 0 <= r < |t.entries| && 0 <= c < |t.entries[r]| ==> t.entries[r][c] == 0.0
  }

  /** `tf.zeros([rows, cols])`. */
  function Zeros(rows: nat, cols: nat): (z: Tensor)
    ensures HasShape(z, rows, cols) && IsZero(z)
  {
    Tensor(seq(rows, _ => seq(cols, _ => 0.0)))
  }
}
