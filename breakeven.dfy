/**
 * The breakeven comparison of two pools: the one-time cost of moving an
 * amount from a source pool to a target pool, against the extra daily yield.
 */
module Breakeven {
  import opened Options
  import opened Text
  import opened Pools
  import opened Lookup
  import opened Series

  /** Migration cost as a fraction of the amount moved. */
  const CostSameChain: real := 0.01
  const CostCrossChain: real := 0.03
  /** `args.amount or 10_000`. */
  const DefaultAmount: real := 10000.0
  const GoWithinDays: real := 30.0
  const MaybeWithinDays: real := 90.0

  datatype Verdict = Go | Maybe | NoGo

  /** The figures the breakeven command reports; `breakevenDays` is None for "never" (infinite). */
  datatype Analysis = Analysis(
    amount: real,
    sameChain: bool,
    costRate: real,
    cost: real,
    netGainPct: real,
    dailyGain: real,
    breakevenDays: Option<real>,
    verdict: Verdict)

  /** The chains match case-insensitively: a same-chain move costs 1%, any other 3%. */
  function CostRate(chainA: string, chainB: string): (rate: real)
    ensures rate == CostSameChain <==> Lower(chainA) == Lower(chainB)
    ensures rate == CostCrossChain <==> Lower(chainA) != Lower(chainB)
  {
    if Lower(chainA) == Lower(chainB) then CostSameChain else CostCrossChain
  }

  /** The thresholds for a finite breakeven time. */
  function VerdictFor(days: real): (v: Verdict)
    ensures v == Go <==> days <= GoWithinDays
    ensures v == Maybe <==> GoWithinDays < days <= MaybeWithinDays
    ensures v == NoGo <==> MaybeWithinDays < days
  {
    if days <= GoWithinDays then Go else if days <= MaybeWithinDays then Maybe else NoGo
  }

  /** The arithmetic and verdict of `cmd_breakeven`, given both pools' APY and chain. */
  function Analyze(apyA: real, apyB: real, chainA: string, chainB: string, amountArg: real): (r: Analysis)
    ensures r.amount == if amountArg == 0.0 then DefaultAmount else amountArg
    ensures r.sameChain <==> Lower(chainA) == Lower(chainB)
    ensures r.costRate == CostRate(chainA, chainB)
    ensures r.cost == r.amount * r.costRate
    ensures r.netGainPct == apyB - apyA
    ensures r.dailyGain == r.netGainPct / 100.0 * r.amount / 365.0
    ensures r.breakevenDays.None? <==> r.dailyGain <= 0.0
    ensures r.breakevenDays.None? ==> r.verdict == NoGo
    ensures r.breakevenDays.Some? ==> r.breakevenDays.value * r.dailyGain == r.cost
    ensures r.breakevenDays.Some? ==> r.verdict == VerdictFor(r.breakevenDays.value)
  {
    var amount := if amountArg == 0.0 then DefaultAmount else amountArg;
    var sameChain := Lower(chainA) == Lower(chainB);
    var costRate := CostRate(chainA, chainB);
    var cost := amount * costRate;
    var netGainPct := apyB - apyA;
    var dailyGain := (netGainPct / 100.0) * amount / 365.0;
    if dailyGain <= 0.0 then
      Analysis(amount, sameChain, costRate, cost, netGainPct, dailyGain, None, NoGo)
    else
      var days := cost / dailyGain;
      Analysis(amount, sameChain, costRate, cost, netGainPct, dailyGain, Some(days), VerdictFor(days))
  }

  /**
   * For a non-negative amount (0 stands for the default) the daily gain is
   * positive exactly when the target yields more.
   */
  lemma GainPositiveIff(apyA: real, apyB: real, chainA: string, chainB: string, amount: real)
    requires amount >= 0.0
    ensures Analyze(apyA, apyB, chainA, chainB, amount).dailyGain > 0.0 <==> apyB > apyA
  {
    var a := Analyze(apyA, apyB, chainA, chainB, amount).amount;
    if apyB > apyA {
      MulPositive((apyB - apyA) / 100.0, a);
    } else {
      MulNonPositive((apyB - apyA) / 100.0, a);
    }
  }

  /** A target that does not yield more is never worth a move: NO-GO, breakeven never reached. */
  lemma NoGainIsNoGo(apyA: real, apyB: real, chainA: string, chainB: string, amount: real)
    requires amount >= 0.0 && apyB <= apyA
    ensures Analyze(apyA, apyB, chainA, chainB, amount).breakevenDays == None
    ensures Analyze(apyA, apyB, chainA, chainB, amount).verdict == NoGo
  {
    GainPositiveIff(apyA, apyB, chainA, chainB, amount);
  }

  /**
   * The amount cancels: the breakeven time is the cost rate times 36500
   * divided by the APY difference.
   */
  lemma DaysIndependentOfAmount(apyA: real, apyB: real, chainA: string, chainB: string, amount: real)
    requires amount >= 0.0 && apyB > apyA
    ensures var r := Analyze(apyA, apyB, chainA, chainB, amount);
      r.breakevenDays == Some(CostRate(chainA, chainB) * 36500.0 / (apyB - apyA))
  {
    GainPositiveIff(apyA, apyB, chainA, chainB, amount);
    var r := Analyze(apyA, apyB, chainA, chainB, amount);
    var rate := CostRate(chainA, chainB);
    var net := apyB - apyA;
    var b := rate * 36500.0 / net;
    assert r.dailyGain == net * r.amount / 36500.0;
    assert b * net == rate * 36500.0;
    assert b * (net * r.amount / 36500.0) == (b * net) * r.amount / 36500.0;
    assert b * r.dailyGain == r.cost;
    DivUnique(r.cost, r.dailyGain, r.breakevenDays.value, b);
  }

  lemma DivUnique(x: real, d: real, a: real, b: real)
    requires d != 0.0 && a * d == x && b * d == x
    ensures a == b
  {
    assert (a - b) * d == 0.0;
  }

  /** So the verdict does not depend on the amount either. */
  lemma VerdictIndependentOfAmount(apyA: real, apyB: real, chainA: string, chainB: string, amount1: real, amount2: real)
    requires amount1 >= 0.0 && amount2 >= 0.0
    ensures Analyze(apyA, apyB, chainA, chainB, amount1).verdict == Analyze(apyA, apyB, chainA, chainB, amount2).verdict
  {
    if apyB > apyA {
      DaysIndependentOfAmount(apyA, apyB, chainA, chainB, amount1);
      DaysIndependentOfAmount(apyA, apyB, chainA, chainB, amount2);
    } else {
      NoGainIsNoGo(apyA, apyB, chainA, chainB, amount1);
      NoGainIsNoGo(apyA, apyB, chainA, chainB, amount2);
    }
  }

  /** Equal yields: no gain, NO-GO, whatever the amount. */
  lemma EqualApyExample(amount: real)
    ensures Analyze(5.0, 5.0, "Base", "Base", amount).dailyGain == 0.0
    ensures Analyze(5.0, 5.0, "Base", "Base", amount).verdict == NoGo
  {
  }

  /** 3% to 8% on one chain with 10,000: cost 100 and 73 days, MAYBE. */
  lemma SameChainMaybeExample()
    ensures var r := Analyze(3.0, 8.0, "Base", "base", 10000.0);
      r.cost == 100.0 && r.breakevenDays == Some(73.0) && r.verdict == Maybe
  {
    var r := Analyze(3.0, 8.0, "Base", "base", 10000.0);
    assert Lower("Base") == Lower("base");
    assert r.dailyGain == 500.0 / 365.0;
  }

  /** 3% to 20%: about 64 days across chains (MAYBE), about 21 on one chain (GO). */
  lemma CrossChainExample()
    ensures var r := Analyze(3.0, 20.0, "Base", "Arbitrum", 10000.0);
      r.cost == 300.0 && r.breakevenDays == Some(1095.0 / 17.0) && r.verdict == Maybe
    ensures var r := Analyze(3.0, 20.0, "Arbitrum", "Arbitrum", 10000.0);
      r.cost == 100.0 && r.breakevenDays == Some(365.0 / 17.0) && r.verdict == Go
  {
    assert Lower("Base") != Lower("Arbitrum") by {
      assert Lower("Base")[0] != Lower("Arbitrum")[0];
    }
    DaysIndependentOfAmount(3.0, 20.0, "Base", "Arbitrum", 10000.0);
    DaysIndependentOfAmount(3.0, 20.0, "Arbitrum", "Arbitrum", 10000.0);
  }

  /**
   * The code does not reject a negative amount: moving -10,000 from 8% to
   * 3% has a positive "daily gain" and a negative breakeven time, so GO.
   */
  lemma NegativeAmountExample()
    ensures var r := Analyze(8.0, 3.0, "Base", "Base", -10000.0);
      r.breakevenDays == Some(-73.0) && r.verdict == Go
  {
    var r := Analyze(8.0, 3.0, "Base", "Base", -10000.0);
    assert r.dailyGain == 500.0 / 365.0;
  }

  datatype Outcome = Compared(analysis: Analysis) | PoolNotFound(poolId: string)

  /**
   * `cmd_breakeven` up to its output: resolve both identifiers (the source
   * first), report the first one that does not resolve, else analyze.
   */
  method CompareById(pools: seq<Pool>, fromId: string, toId: string, amount: real) returns (r: Outcome)
    ensures FindPool(pools, fromId).None? ==> r == PoolNotFound(fromId)
    ensures FindPool(pools, fromId).Some? && FindPool(pools, toId).None? ==> r == PoolNotFound(toId)
    ensures FindPool(pools, fromId).Some? && FindPool(pools, toId).Some? ==>
      var a, b := FindPool(pools, fromId).value, FindPool(pools, toId).value;
      r == Compared(Analyze(Apy(a), Apy(b), a.chain, b.chain, amount))
  {
    var poolA := FindPoolById(pools, fromId);
    var poolB := FindPoolById(pools, toId);
    if poolA.None? {
      return PoolNotFound(fromId);
    }
    if poolB.None? {
      return PoolNotFound(toId);
    }
    var a, b := poolA.value, poolB.value;
    r := Compared(Analyze(Apy(a), Apy(b), a.chain, b.chain, amount));
  }
}
