/** The arithmetic of the `predict` handlers of `vmp/api_server.py` and
    `vmp/server_ml.py` (the two are written alike): the ratio features, which
    fall back to 0 instead of dividing by zero, and the proxy cost, energy and
    load-balance objectives with their normalised weighted score. Values are
    exact reals and the rounding of the answer is not modelled. */
module Objectives {
  import opened Common

  /** A ratio feature: `numerator / denominator`, or 0 when the denominator
      is 0 (`cpu_mem_ratio` is `Ratio(cpu, memory)` and `power_per_cpu` is
      `Ratio(power, cpu)`). */
  function Ratio(numerator: real, denominator: real): (r: real)
    ensures denominator == 0.0 ==> r == 0.0
    ensures denominator != 0.0 ==> r * denominator == numerator
  {
    if denominator != 0.0 then numerator / denominator else 0.0
  }

  /** The proxy cost: power and CPU at fixed rates, plus network traffic
      above 1 at half rate. */
  function ProxyCost(power: real, cpu: real, networkIo: real): (r: real)
    ensures power >= 0.0 && cpu >= 0.0 ==> r >= 0.0
    ensures networkIo <= 1.0 ==> r == power * 0.12 + cpu * 0.05
  {
    power * 0.12 + cpu * 0.05 + Max(0.0, networkIo - 1.0) * 0.5
  }

  /** The proxy energy, linear in power and CPU. */
  function ProxyEnergy(power: real, cpu: real): (r: real)
    ensures power >= 0.0 && cpu >= 0.0 ==> r >= 0.0
  {
    power * 0.9 + cpu * 0.2
  }

  /** The proxy load balance: 100 less the gap between CPU and memory (memory
      capped at 100), the gap itself capped at 100. */
  function ProxyLoadBalance(cpu: real, memory: real): (r: real)
    ensures 0.0 <= r <= 100.0
    ensures r == 100.0 <==> cpu == Min(memory, 100.0)
    ensures r == 0.0 <==> Abs(cpu - Min(memory, 100.0)) >= 100.0
  {
    100.0 - Min(100.0, Abs(cpu - (if memory <= 100.0 then memory else 100.0)))
  }

  /** The proxy cost scaled by 200, capped at 1. */
  function NormCost(proxyCost: real): (r: real)
    ensures r <= 1.0
    ensures r == 1.0 <==> proxyCost >= 200.0
    ensures proxyCost < 200.0 ==> r * 200.0 == proxyCost
    ensures proxyCost >= 0.0 ==> r >= 0.0
  {
    Min(1.0, proxyCost / 200.0)
  }

  /** The proxy energy scaled by 300, capped at 1. */
  function NormEnergy(proxyEnergy: real): (r: real)
    ensures r <= 1.0
    ensures r == 1.0 <==> proxyEnergy >= 300.0
    ensures proxyEnergy < 300.0 ==> r * 300.0 == proxyEnergy
    ensures proxyEnergy >= 0.0 ==> r >= 0.0
  {
    Min(1.0, proxyEnergy / 300.0)
  }

  /** The imbalance: 1 less the load balance scaled by 100 (capped at 1). */
  function NormLoad(loadBalance: real): (r: real)
    ensures r >= 0.0
    ensures loadBalance >= 0.0 ==> r <= 1.0
    ensures loadBalance <= 100.0 ==> r * 100.0 == 100.0 - loadBalance
  {
    1.0 - Min(1.0, loadBalance / 100.0)
  }

  datatype ObjectiveWeights = ObjectiveWeights(cost: real, energy: real, load: real)

  predicate NonNegativeWeights(w: ObjectiveWeights) {
    w.cost >= 0.0 && w.energy >= 0.0 && w.load >= 0.0
  }

  /** The `objectives` part of the answer. */
  datatype ProxyObjectives = ProxyObjectives(cost: real, energy: real, loadBalance: real, weightedScore: real)

  lemma WeightedTermBounds(weight: real, norm: real)
    requires weight >= 0.0 && 0.0 <= norm <= 1.0
    ensures 0.0 <= weight * norm <= weight
  {
  }

  /** The weighted sum of the three normalised terms: with non-negative
      weights and terms in [0, 1] it lies between 0 and the sum of the
      weights. */
  function WeightedScore(w: ObjectiveWeights, nCost: real, nEnergy: real, nLoad: real): (r: real)
    ensures NonNegativeWeights(w) && 0.0 <= nCost <= 1.0 && 0.0 <= nEnergy <= 1.0 && 0.0 <= nLoad <= 1.0 ==>
              0.0 <= r <= w.cost + w.energy + w.load
  {
    assert NonNegativeWeights(w) && 0.0 <= nCost <= 1.0 && 0.0 <= nEnergy <= 1.0 && 0.0 <= nLoad <= 1.0 ==>
             0.0 <= w.cost * nCost + w.energy * nEnergy + w.load * nLoad <= w.cost + w.energy + w.load by {
      if NonNegativeWeights(w) && 0.0 <= nCost <= 1.0 && 0.0 <= nEnergy <= 1.0 && 0.0 <= nLoad <= 1.0 {
        WeightedSumBounds(w.cost, w.energy, w.load, nCost, nEnergy, nLoad);
      }
    }
    w.cost * nCost + w.energy * nEnergy + w.load * nLoad
  }

  /** With non-negative weights the score never falls when the cost or the
      energy term rises. */
  lemma WeightedScoreMonotone(w: ObjectiveWeights, c1: real, c2: real, e1: real, e2: real, nLoad: real)
    requires NonNegativeWeights(w) && c1 <= c2 && e1 <= e2
    ensures WeightedScore(w, c1, e1, nLoad) <= WeightedScore(w, c2, e2, nLoad)
  {
    ScaleMonotone(w.cost, c1, c2);
    ScaleMonotone(w.energy, e1, e2);
  }

  lemma ScaleMonotone(k: real, a: real, b: real)
    requires k >= 0.0 && a <= b
    ensures k * a <= k * b
  {
  }

  /** With non-negative weights and terms in [0, 1], a weighted sum of three
      terms lies between 0 and the sum of the weights. */
  lemma WeightedSumBounds(wc: real, we: real, wl: real, nc: real, ne: real, nl: real)
    requires wc >= 0.0 && we >= 0.0 && wl >= 0.0
    requires 0.0 <= nc <= 1.0 && 0.0 <= ne <= 1.0 && 0.0 <= nl <= 1.0
    ensures 0.0 <= wc * nc + we * ne + wl * nl <= wc + we + wl
  {
    WeightedTermBounds(wc, nc);
    WeightedTermBounds(we, ne);
    WeightedTermBounds(wl, nl);
    SumOfBoundedTerms(wc * nc, we * ne, wl * nl, wc, we, wl);
  }

  lemma SumOfBoundedTerms(x: real, y: real, z: real, wx: real, wy: real, wz: real)
    requires 0.0 <= x <= wx && 0.0 <= y <= wy && 0.0 <= z <= wz
    ensures 0.0 <= x + y + z <= wx + wy + wz
  {
  }

  /** The weights both `predict` handlers fall back to when the request
      names none: cost 0.34, energy 0.33 and load 0.33. */
  const DefaultWeights: ObjectiveWeights := ObjectiveWeights(0.34, 0.33, 0.33)

  /** The default weights sum to 1, so the default weighted score is a
      weighted mean of the three normalised terms. */
  lemma DefaultWeightsSumToOne()
    ensures DefaultWeights.cost + DefaultWeights.energy + DefaultWeights.load == 1.0
    ensures NonNegativeWeights(DefaultWeights)
  {
  }

  /** Lines 182-189 of `vmp/api_server.py`. */
  function ObjectivesOf(cpu: real, memory: real, networkIo: real, power: real, w: ObjectiveWeights): (r: ProxyObjectives)
    ensures r.cost == ProxyCost(power, cpu, networkIo)
    ensures r.energy == ProxyEnergy(power, cpu)
    ensures r.loadBalance == ProxyLoadBalance(cpu, memory) && 0.0 <= r.loadBalance <= 100.0
    ensures NonNegativeWeights(w) && cpu >= 0.0 && power >= 0.0 ==> 0.0 <= r.weightedScore <= w.cost + w.energy + w.load
    ensures w == DefaultWeights && cpu >= 0.0 && power >= 0.0 ==> 0.0 <= r.weightedScore <= 1.0
  {
    var cost := ProxyCost(power, cpu, networkIo);
    var energy := ProxyEnergy(power, cpu);
    var balance := ProxyLoadBalance(cpu, memory);
    assert cpu >= 0.0 && power >= 0.0 ==> 0.0 <= NormCost(cost) <= 1.0 && 0.0 <= NormEnergy(energy) <= 1.0 by {
      if cpu >= 0.0 && power >= 0.0 {
        NormalisedTermsInUnitInterval(cpu, memory, networkIo, power);
      }
    }
    ProxyObjectives(cost, energy, balance, WeightedScore(w, NormCost(cost), NormEnergy(energy), NormLoad(balance)))
  }

  /** With non-negative weights, CPU and power, the weighted score lies
      between 0 and the sum of the weights. */
  lemma WeightedScoreInRange(cpu: real, memory: real, networkIo: real, power: real, w: ObjectiveWeights)
    requires NonNegativeWeights(w) && cpu >= 0.0 && power >= 0.0
    ensures 0.0 <= ObjectivesOf(cpu, memory, networkIo, power, w).weightedScore <= w.cost + w.energy + w.load
  {
    var nCost := NormCost(ProxyCost(power, cpu, networkIo));
    var nEnergy := NormEnergy(ProxyEnergy(power, cpu));
    var nLoad := NormLoad(ProxyLoadBalance(cpu, memory));
    NormalisedTermsInUnitInterval(cpu, memory, networkIo, power);
    WeightedScoreBounds(w, nCost, nEnergy, nLoad);
    assert ObjectivesOf(cpu, memory, networkIo, power, w).weightedScore == WeightedScore(w, nCost, nEnergy, nLoad);
  }

  /** With non-negative weights, more power never lowers the weighted score:
      the cost and energy terms grow with power and the load-balance term
      does not depend on it. */
  lemma {:induction false} ScoreRisesWithPower(cpu: real, memory: real, networkIo: real, power1: real, power2: real, w: ObjectiveWeights)
    requires NonNegativeWeights(w) && power1 <= power2
    ensures ObjectivesOf(cpu, memory, networkIo, power1, w).weightedScore
         <= ObjectivesOf(cpu, memory, networkIo, power2, w).weightedScore
  {
    var c1, c2 := ProxyCost(power1, cpu, networkIo), ProxyCost(power2, cpu, networkIo);
    var e1, e2 := ProxyEnergy(power1, cpu), ProxyEnergy(power2, cpu);
    assert NormCost(c1) <= NormCost(c2);
    assert NormEnergy(e1) <= NormEnergy(e2);
    var nLoad := NormLoad(ProxyLoadBalance(cpu, memory));
    WeightedScoreMonotone(w, NormCost(c1), NormCost(c2), NormEnergy(e1), NormEnergy(e2), nLoad);
  }

  lemma WeightedScoreBounds(w: ObjectiveWeights, nCost: real, nEnergy: real, nLoad: real)
    requires NonNegativeWeights(w)
    requires 0.0 <= nCost <= 1.0 && 0.0 <= nEnergy <= 1.0 && 0.0 <= nLoad <= 1.0
    ensures 0.0 <= WeightedScore(w, nCost, nEnergy, nLoad) <= w.cost + w.energy + w.load
  {
    WeightedSumBounds(w.cost, w.energy, w.load, nCost, nEnergy, nLoad);
  }

  /** The normalised terms lie in [0, 1] for non-negative CPU and power,
      whatever the memory and network readings. */
  lemma NormalisedTermsInUnitInterval(cpu: real, memory: real, networkIo: real, power: real)
    requires cpu >= 0.0 && power >= 0.0
    ensures 0.0 <= NormCost(ProxyCost(power, cpu, networkIo)) <= 1.0
    ensures 0.0 <= NormEnergy(ProxyEnergy(power, cpu)) <= 1.0
    ensures 0.0 <= NormLoad(ProxyLoadBalance(cpu, memory)) <= 1.0
  {
  }
}
