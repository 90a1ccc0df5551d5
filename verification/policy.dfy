/** The epoch-level learning-rate policy. After each epoch's validation the rate is
    multiplied by the decay factor exactly when the epoch's perplexity is strictly
    greater than the previous epoch's; epoch 0 never decays. The previous perplexity
    is threaded explicitly: None stands for the not-yet-assigned Python local. */
module Policy {
  import opened Outcomes

  datatype RateState = RateState(learningRate: real, lastPerplexity: Option<real>)

  /** The update at the end of epoch `epoch`. The `epoch > 0` test short-circuits, so
      the previous perplexity is read only from epoch 1 on; reading it while unassigned
      would raise NameError. The previous perplexity is always overwritten. */
  function Decide(epoch: nat, st: RateState, decay: real, perplexity: real): (r: Result<RateState>)
    ensures epoch == 0 ==> r == Success(RateState(st.learningRate, Some(perplexity)))
    ensures r.Failure? <==> epoch > 0 && st.lastPerplexity.None?
    ensures r.Failure? ==> r.error == UndefinedName
    ensures r.Success? ==> r.value.lastPerplexity == Some(perplexity)
    ensures r.Success? && epoch > 0 ==>
              (r.value.learningRate == st.learningRate * decay <== perplexity > st.lastPerplexity.value) &&
              (r.value.learningRate == st.learningRate <== perplexity <= st.lastPerplexity.value)
  {
    if epoch > 0 then
      match st.lastPerplexity
      case None => Failure(UndefinedName)
      case Some(last) =>
        var rate := if perplexity > last then st.learningRate * decay else st.learningRate;
        Success(RateState(rate, Some(perplexity)))
    else
      Success(RateState(st.learningRate, Some(perplexity)))
  }

  /** The policy over a run of epochs whose validation perplexities are `ps`, starting
      from `rate0` with no previous perplexity. */
  function Schedule(rate0: real, decay: real, ps: seq<real>): (r: Result<RateState>)
    ensures r.Success?
    ensures r.value.lastPerplexity == if ps == [] then None else Some(ps[|ps| - 1])
    decreases |ps|
  {
    if ps == [] then Success(RateState(rate0, None))
    else
      var prev := Schedule(rate0, decay, ps[..|ps| - 1]);
      if prev.Failure? then prev else Decide(|ps| - 1, prev.value, decay, ps[|ps| - 1])
  }

  /** `rate` multiplied by `decay`, `k` times over. */
  function Decayed(rate: real, decay: real, k: nat): real
  {
    if k == 0 then rate else Decayed(rate, decay, k - 1) * decay
  }

  /** Number of epochs `e >= 1` whose perplexity is strictly above epoch `e - 1`'s. */
  function Regressions(ps: seq<real>): nat
  {
    if |ps| < 2 then 0
    else Regressions(ps[..|ps| - 1]) + (if ps[|ps| - 1] > ps[|ps| - 2] then 1 else 0)
  }

  /** Closed form: the rate after the epochs is the initial rate times the decay factor
      once per regression, independent of improvements and of epoch 0. */
  lemma {:induction false} ScheduleClosedForm(rate0: real, decay: real, ps: seq<real>)
    ensures Schedule(rate0, decay, ps).value.learningRate == Decayed(rate0, decay, Regressions(ps))
    decreases |ps|
  {
    if ps != [] {
      var init := ps[..|ps| - 1];
      ScheduleClosedForm(rate0, decay, init);
      var before := Schedule(rate0, decay, init).value;
      var k := Regressions(init);
      assert before.learningRate == Decayed(rate0, decay, k);
      var after := Decide(|ps| - 1, before, decay, ps[|ps| - 1]);
      assert Schedule(rate0, decay, ps) == after;
      if |ps| >= 2 && ps[|ps| - 1] > ps[|ps| - 2] {
        assert init[|init| - 1] == ps[|ps| - 2];
        assert Regressions(ps) == k + 1;
        assert after.value.learningRate == before.learningRate * decay;
      } else if |ps| >= 2 {
        assert init[|init| - 1] == ps[|ps| - 2];
        assert Regressions(ps) == k;
      }
    }
  }

  /** Worked example: decay 0.5 from rate 1.0 with perplexities 40, 50, 45 halves the rate
      once (epoch 1 regressed, epoch 2 improved). */
  lemma ScheduleExample()
    ensures Schedule(1.0, 0.5, [40.0]).value.learningRate == 1.0
    ensures Schedule(1.0, 0.5, [40.0, 50.0]).value.learningRate == 0.5
    ensures Schedule(1.0, 0.5, [40.0, 50.0, 45.0]).value.learningRate == 0.5
  {
    assert [40.0, 50.0, 45.0][..2] == [40.0, 50.0];
    assert [40.0, 50.0][..1] == [40.0];
  }
}
