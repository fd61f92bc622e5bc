/** The three-tier risk classifier shown beside every ranked pool. */
module Risk {
  import opened Options
  import opened Pools

  datatype Tier = High | Med | Low

  /** Ordinal position of a tier: HIGH is the most severe. */
  function Severity(t: Tier): nat {
    match t
    case High => 2
    case Med => 1
    case Low => 0
  }

  const HighRiskTvlBelow: real := 500000.0
  const MedRiskTvlBelow: real := 5000000.0

  /**
   * The prediction labels read as a warning: "Down" and "". A missing
   * predictions record reads as "", but a JSON null label is Python's None,
   * which is neither.
   */
  predicate WeakPrediction(l: Label): (r: bool)
    ensures l.NoLabel? ==> r
    ensures l.NullLabel? ==> !r
    ensures l.Label? ==> (r <==> l.name == "Down" || l.name == "")
  {
    l == NoLabel || l == Label("Down") || l == Label("")
  }

  /** `risk_score`: the first matching rule wins. */
  function RiskScore(p: Pool): (r: Tier)
    ensures r == High <==> Tvl(p) < HighRiskTvlBelow || p.ilRisk == "yes"
    ensures r == Med <==> !(Tvl(p) < HighRiskTvlBelow || p.ilRisk == "yes")
                          && (Tvl(p) < MedRiskTvlBelow || WeakPrediction(p.prediction))
    ensures r == Low <==> Tvl(p) >= MedRiskTvlBelow && p.ilRisk != "yes" && !WeakPrediction(p.prediction)
  {
    if Tvl(p) < HighRiskTvlBelow || p.ilRisk == "yes" then High
    else if Tvl(p) < MedRiskTvlBelow || WeakPrediction(p.prediction) then Med
    else Low
  }

  /** Raising a pool's TVL, all else equal, never raises its risk tier. */
  lemma RiskMonotoneInTvl(p: Pool, tvl: real)
    requires Tvl(p) <= tvl
    ensures Severity(RiskScore(p.(tvlUsd := Some(tvl)))) <= Severity(RiskScore(p))
  {
  }

  /** Only the TVL, the IL flag and the label decide the tier. */
  lemma RiskDependsOnlyOnRiskFields(p: Pool, q: Pool)
    requires Tvl(p) == Tvl(q) && p.ilRisk == q.ilRisk && p.prediction == q.prediction
    ensures RiskScore(p) == RiskScore(q)
  {
  }

  function SamplePool(tvl: real, cls: Label): Pool {
    Pool("pool-1", "Base", "aave-v3", true, "USDC", "single", Some(tvl), Some(5.0), "no", cls)
  }

  /** The tiers of three sample pools: 400k, 2M with "Up", 10M with "Up". */
  lemma RiskExamples()
    ensures RiskScore(SamplePool(400000.0, Label("Up"))) == High
    ensures RiskScore(SamplePool(2000000.0, Label("Up"))) == Med
    ensures RiskScore(SamplePool(10000000.0, Label("Up"))) == Low
    ensures RiskScore(SamplePool(10000000.0, NoLabel)) == Med
    ensures RiskScore(SamplePool(10000000.0, NullLabel)) == Low
  {
  }
}
