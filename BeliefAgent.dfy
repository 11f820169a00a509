/**
 * One agent of the belief-sharing simulation (agent.py): a Beta(a, b) prior over
 * the coin's bias, the data (k successes in n trials) gathered since the last
 * update, and the history of its belief in the hypothesis interval.
 * `scipy.stats.beta.cdf` is not modelled; each agent carries it as the
 * function `betaCdf(x, a, b)`.
 */
module BeliefAgent {

  /** (k, n): k successes out of n trials; after weighing they are no longer integers. */
  type Data = (real, real)

  /** The parameters (a, b) of a Beta distribution. */
  type Prior = (real, real)

  /** beta.cdf(x, a, b). */
  type Cdf = (real, real, real) -> real

  function Last(h: seq<real>): real
    requires |h| > 0
  {
    h[|h| - 1]
  }

  /** `probability_hypothesis`: the mass that Beta(a, b) puts on (lower, upper]. */
  function Belief(betaCdf: Cdf, hypothesis: (real, real), prior: Prior): real
  {
    betaCdf(hypothesis.1, prior.0, prior.1) - betaCdf(hypothesis.0, prior.0, prior.1)
  }

  /** A batch of data that could come from trials: 0 <= k <= n. */
  predicate WellFormed(d: Data)
  {
    0.0 <= d.0 <= d.1
  }

  /**
   * `merge_data`: componentwise sum. Merging two batches of trials gives a
   * batch of trials, and merging nothing leaves the data as it is.
   */
  function Merge(d: Data, e: Data): (r: Data)
    ensures WellFormed(d) && WellFormed(e) ==> WellFormed(r)
    ensures e == (0.0, 0.0) ==> r == d
    ensures d == (0.0, 0.0) ==> r == e
  {
    (d.0 + e.0, d.1 + e.1)
  }

  /** The beta-binomial conjugate update: (a, b) becomes (a + k, b + (n - k)). */
  function Posterior(prior: Prior, data: Data): (r: Prior)
    ensures r.0 + r.1 == prior.0 + prior.1 + data.1
    ensures r.0 - prior.0 == data.0 && r.1 - prior.1 == data.1 - data.0
  {
    (prior.0 + data.0, prior.1 + (data.1 - data.0))
  }

  function Abs(x: real): real
  {
    if x < 0.0 then -x else x
  }

  function Min(x: real, y: real): real
  {
    if x <= y then x else y
  }

  /** `1 - min(1, mistrust * diff)`: full weight without mistrust, none once mistrust * diff reaches 1. */
  function Weight(mistrust: real, diff: real): (w: real)
    ensures w >= 0.0
    ensures mistrust >= 0.0 && diff >= 0.0 ==> w <= 1.0
    ensures mistrust == 0.0 ==> w == 1.0
    ensures mistrust * diff >= 1.0 ==> w == 0.0
  {
    assert mistrust >= 0.0 && diff >= 0.0 ==> mistrust * diff >= 0.0 by {
      if mistrust >= 0.0 && diff >= 0.0 { MulNonNegative(mistrust, diff); }
    }
    assert mistrust == 0.0 ==> mistrust * diff == 0.0;
    1.0 - Min(1.0, mistrust * diff)
  }

  lemma MulNonNegative(p: real, q: real)
    requires p >= 0.0 && q >= 0.0
    ensures p * q >= 0.0
  {
  }

  /** Both components of the data multiplied by the same weight: (k * w, n * w). */
  function Scale(d: Data, w: real): (r: Data)
    ensures w == 1.0 ==> r == d
    ensures w == 0.0 ==> r == (0.0, 0.0)
    ensures w >= 0.0 && WellFormed(d) ==> WellFormed(r)
    ensures 0.0 <= w <= 1.0 && d.0 >= 0.0 ==> 0.0 <= r.0 <= d.0
    ensures 0.0 <= w <= 1.0 && d.1 >= 0.0 ==> 0.0 <= r.1 <= d.1
  {
    ScaleBounds(d, w);
    (d.0 * w, d.1 * w)
  }

  lemma ScaleBounds(d: Data, w: real)
    ensures w == 1.0 ==> d.0 * w == d.0 && d.1 * w == d.1
    ensures w == 0.0 ==> d.0 * w == 0.0 && d.1 * w == 0.0
    ensures w >= 0.0 && WellFormed(d) ==> 0.0 <= d.0 * w <= d.1 * w
    ensures 0.0 <= w <= 1.0 && d.0 >= 0.0 ==> 0.0 <= d.0 * w <= d.0
    ensures 0.0 <= w <= 1.0 && d.1 >= 0.0 ==> 0.0 <= d.1 * w <= d.1
  {
    if w >= 0.0 && WellFormed(d) {
      MulNonNegative(d.0, w);
      ScaleOrdered(d.0, d.1, w);
    }
    if 0.0 <= w <= 1.0 && d.0 >= 0.0 {
      ScaleWithin(d.0, w);
    }
    if 0.0 <= w <= 1.0 && d.1 >= 0.0 {
      ScaleWithin(d.1, w);
    }
  }

  lemma ScaleOrdered(k: real, n: real, w: real)
    requires k <= n && 0.0 <= w
    ensures k * w <= n * w
  {
    MulNonNegative(n - k, w);
  }

  lemma ScaleWithin(x: real, w: real)
    requires 0.0 <= x && 0.0 <= w <= 1.0
    ensures 0.0 <= x * w <= x
  {
    assert x - x * w == x * (1.0 - w);
    assert x * (1.0 - w) >= 0.0 by {
      if x > 0.0 && 1.0 - w > 0.0 {
        assert x * (1.0 - w) > 0.0;
      }
    }
  }

  class Agent {
    const initialPrior: Prior
    const hypothesis: (real, real)
    const curious: bool
    const mistrust: real
    const betaCdf: Cdf
    var prior: Prior
    var data: Data
    var history: seq<real>

    function ProbabilityHypothesis(): real
      reads this`prior
    {
      Belief(betaCdf, hypothesis, prior)
    }

    /** The history is never empty and its last entry is the belief for the current prior. */
    ghost predicate Valid()
      reads this`history, this`prior
    {
      |history| > 0 && Last(history) == ProbabilityHypothesis()
    }

    /** `Agent.__init__`: store the parameters, then `reset()`. */
    constructor (prior: Prior, hypothesis: (real, real), curious: bool, mistrust: real, betaCdf: Cdf)
      ensures Valid()
      ensures initialPrior == prior && this.hypothesis == hypothesis && this.curious == curious
      ensures this.mistrust == mistrust && this.betaCdf == betaCdf
      ensures this.prior == prior && data == (0.0, 0.0) && history == [Belief(betaCdf, hypothesis, prior)]
    {
      initialPrior := prior;
      this.hypothesis := hypothesis;
      this.curious := curious;
      this.mistrust := mistrust;
      this.betaCdf := betaCdf;
      new;
      Reset();
    }

    /** `reset`: back to the initial prior, no data, a one-entry history. */
    method Reset()
      modifies this
      ensures Valid()
      ensures prior == initialPrior && data == (0.0, 0.0)
      ensures history == [Belief(betaCdf, hypothesis, initialPrior)]
    {
      prior := initialPrior;
      ResetData();
      history := [];
      UpdateHistory();
    }

    /** `reset_data`. */
    method ResetData()
      modifies this`data
      ensures data == (0.0, 0.0)
    {
      data := (0.0, 0.0);
    }

    /** `merge_data`. */
    method MergeData(d: Data)
      modifies this`data
      ensures data == Merge(old(data), d)
    {
      var (k, n) := data;
      var (kNew, nNew) := d;
      data := (k + kNew, n + nNew);
    }

    /** `update_history`: append the belief for the current prior. */
    method UpdateHistory()
      modifies this`history
      ensures history == old(history) + [ProbabilityHypothesis()]
      ensures Valid()
    {
      var probH := ProbabilityHypothesis();
      history := history + [probH];
    }

    /** `update_belief`: conjugate update, one new history entry, data cleared. */
    method UpdateBelief()
      modifies this`prior, this`history, this`data
      ensures prior == Posterior(old(prior), old(data))
      ensures history == old(history) + [Belief(betaCdf, hypothesis, prior)]
      ensures data == (0.0, 0.0)
      ensures Valid()
    {
      var (k, n) := data;
      var (a, b) := prior;
      prior := (a + k, b + (n - k));
      UpdateHistory();
      ResetData();
    }

    /** `disagreement_hypotheses`: distance between the two latest beliefs. */
    function DisagreementHypotheses(source: Agent): (diff: real)
      reads this`history, source`history
      requires |history| > 0 && |source.history| > 0
      ensures diff >= 0.0
      ensures diff == 0.0 <==> Last(history) == Last(source.history)
    {
      Abs(Last(history) - Last(source.history))
    }

    /** `weigh_data`: both components scaled by the agent's weight for this source. */
    function WeighData(d: Data, source: Agent): (r: Data)
      reads this`history, source`history
      requires |history| > 0 && |source.history| > 0
      ensures r == Scale(d, Weight(mistrust, DisagreementHypotheses(source)))
      ensures mistrust == 0.0 ==> r == d
      ensures mistrust * DisagreementHypotheses(source) >= 1.0 ==> r == (0.0, 0.0)
      ensures WellFormed(d) ==> WellFormed(r)
      ensures mistrust >= 0.0 && d.0 >= 0.0 ==> 0.0 <= r.0 <= d.0
      ensures mistrust >= 0.0 && d.1 >= 0.0 ==> 0.0 <= r.1 <= d.1
    {
      Scale(d, Weight(mistrust, DisagreementHypotheses(source)))
    }
  }

  /** Disagreement is symmetric, and zero between an agent and itself. */
  lemma DisagreementSymmetric(x: Agent, y: Agent)
    requires |x.history| > 0 && |y.history| > 0
    ensures x.DisagreementHypotheses(y) == y.DisagreementHypotheses(x)
    ensures x.DisagreementHypotheses(x) == 0.0
  {
  }
}
