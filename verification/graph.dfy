/** Graph construction of the training windows. The construction loop builds the
    towers, cost and optimizer ops of every window `i < n // f`, but it assigns the cost
    and optimizer ops to the same two attributes on every iteration, so afterwards only
    the last window's ops are reachable from the training loop. */
module Graph {
  import opened Outcomes
  import opened Windows

  /** The windows whose ops were added to the graph, in construction order, and the
      window whose optimizer op the attribute still refers to (None: never assigned). */
  datatype TrainingOps = TrainingOps(built: seq<nat>, reachable: Option<nat>)

  /** The window the training loop actually runs: the last one that fits in the
      `n + 1` batch elements, or None when not even window 0 fits. */
  function ReachableWindow(n: nat, f: nat): (r: Option<nat>)
    requires f > 0
    ensures r.None? <==> !WindowFits(n + 1, 0, f)
    ensures r.Some? ==> WindowFits(n + 1, r.value, f) && !WindowFits(n + 1, r.value + 1, f)
  {
    if n / f == 0 then None
    else
      WindowIndicesInSlots(n, f, n / f - 1, 0);
      Some(n / f - 1)
  }

  /** The construction loop: `n // f` raises ZeroDivisionError when `f` is zero;
      otherwise every window's ops are built and the attribute ends up on the last. */
  method BuildTrainingOps(n: nat, f: nat) returns (r: Result<TrainingOps>)
    ensures r.Failure? <==> f == 0
    ensures r.Failure? ==> r.error == ZeroDivision
    ensures r.Success? ==> NumWindows(n, f) == Success(|r.value.built|)
    ensures r.Success? ==> forall i :: 0 <= i < |r.value.built| ==> r.value.built[i] == i
    ensures r.Success? ==> r.value.reachable == ReachableWindow(n, f)
  {
    if f == 0 {
      return Failure(ZeroDivision);
    }
    var windows := n / f;
    var built: seq<nat> := [];
    var reachable: Option<nat> := None;
    var i := 0;
    while i < windows
      invariant i <= windows
      invariant |built| == i && forall k :: 0 <= k < i ==> built[k] == k
      invariant reachable == if i == 0 then None else Some(i - 1)
    {
      built := built + [i];
      reachable := Some(i);
      i := i + 1;
    }
    return Success(TrainingOps(built, reachable));
  }
}
