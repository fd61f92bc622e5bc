/**
 * The pool record read from the bulk feed, the whitelist configuration and
 * the eligibility predicate applied to every pool before it is shown.
 */
module Pools {
  import opened Options
  import opened Text

  /** The `predictions.predictedClass` entry of a pool. */
  datatype Label =
    | NoLabel            // `predictions` absent, null or empty, or no `predictedClass` key: read as ""
    | NullLabel          // `predictedClass` present and JSON null: read as Python's None
    | Label(name: string)

  /**
   * One pool record. Strings that may be absent hold the value the code reads
   * in that case: "" for `pool`, `chain`, `project` and `symbol`, "single"
   * for `exposure`, "no" for `ilRisk`.
   */
  datatype Pool = Pool(
    id: string,
    chain: string,
    project: string,
    stablecoin: bool,
    symbol: string,
    exposure: string,
    tvlUsd: Option<real>,
    apy: Option<real>,
    ilRisk: string,
    prediction: Label)

  /** Supported chains, keyed by their command-line spelling. */
  const Chains: map<string, string> := map["base" := "Base", "arbitrum" := "Arbitrum"]

  const WhitelistedProtocols: set<string> := {
    "morpho-v1", "euler-v2", "lazy-summer-protocol", "silo-v2", "moonwell-lending",
    "compound-v3", "aave-v3", "harvest-finance", "40-acres", "wasabi-protocol", "yo-protocol"
  }

  /** `p.get("tvlUsd", 0) or 0`: an absent or null TVL counts as 0. */
  function Tvl(p: Pool): (t: real)
    ensures p.tvlUsd.Some? ==> t == p.tvlUsd.value
    ensures p.tvlUsd.None? ==> t == 0.0
  {
    p.tvlUsd.GetOr(0.0)
  }

  /** `p.get("apy", 0) or 0`: an absent or null APY counts as 0. */
  function Apy(p: Pool): (a: real)
    ensures p.apy.Some? ==> a == p.apy.value
    ensures p.apy.None? ==> a == 0.0
  {
    p.apy.GetOr(0.0)
  }

  /**
   * The eligibility test, as the source writes it: a sequence of guard
   * clauses. The contract states the five clauses it amounts to.
   */
  function IsUsdcPool(p: Pool): (r: bool)
    ensures r <==>
      && (p.chain == "Base" || p.chain == "Arbitrum")
      && p.project in WhitelistedProtocols
      && p.stablecoin
      && (exists i :: OccursAt(Upper(p.symbol), "USDC", i))
      && p.exposure != "multi"
  {
    assert Chains["base"] == "Base" && Chains["arbitrum"] == "Arbitrum";
    assert Chains.Values == {"Base", "Arbitrum"};
    if p.chain !in Chains.Values then false
    else if p.project !in WhitelistedProtocols then false
    else if !p.stablecoin then false
    else if !Contains(Upper(p.symbol), "USDC") then false
    else if p.exposure == "multi" then false
    else true
  }
}
