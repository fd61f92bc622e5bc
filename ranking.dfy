/**
 * The filter/rank engine: eligibility plus the optional chain, protocol and
 * minimum-TVL constraints, a stable sort by APY (highest first), and the
 * top-N cut of the scan command.
 */
module Ranking {
  import opened Options
  import opened Text
  import opened Pools

  /** The optional constraints of a scan. */
  datatype Criteria = Criteria(chain: Option<string>, protocol: Option<string>, minTvl: real)

  /** Python truthiness of an optional string argument: None and "" both mean "not given". */
  predicate Given(o: Option<string>): (r: bool)
    ensures r <==> o != None && o != Some("")
  {
    o.Some? && o.value != ""
  }

  /**
   * A pool survives every `continue` guard of the filter loop: each guard
   * that fires rejects it, and without chain and protocol arguments only
   * eligibility and the TVL floor remain.
   */
  predicate Qualifies(p: Pool, c: Criteria): (r: bool)
    ensures r ==> IsUsdcPool(p) && Tvl(p) >= c.minTvl
    ensures Given(c.chain) && Lower(p.chain) != Lower(c.chain.value) ==> !r
    ensures Given(c.protocol) && p.project != c.protocol.value ==> !r
    ensures !Given(c.chain) && !Given(c.protocol) ==> (r <==> IsUsdcPool(p) && Tvl(p) >= c.minTvl)
  {
    && IsUsdcPool(p)
    && (Given(c.chain) ==> Lower(p.chain) == Lower(c.chain.value))
    && (Given(c.protocol) ==> p.project == c.protocol.value)
    && Tvl(p) >= c.minTvl
  }

  /** The qualifying pools in input order. */
  function Select(pools: seq<Pool>, c: Criteria): (r: seq<Pool>)
    ensures |r| <= |pools|
    ensures forall p :: p in r ==> p in pools && Qualifies(p, c)
    decreases |pools|
  {
    if pools == [] then []
    else
      var last := pools[|pools| - 1];
      Select(pools[..|pools| - 1], c) + (if Qualifies(last, c) then [last] else [])
  }

  /** Every qualifying pool is kept exactly as often as it occurs in the input; no other is. */
  lemma {:induction false} SelectCounts(pools: seq<Pool>, c: Criteria, p: Pool)
    ensures multiset(Select(pools, c))[p] == if Qualifies(p, c) then multiset(pools)[p] else 0
    decreases |pools|
  {
    if pools != [] {
      var init, last := pools[..|pools| - 1], pools[|pools| - 1];
      assert pools == init + [last];
      SelectCounts(init, c, p);
    }
  }

  /** A list whose every pool qualifies is its own qualifying subsequence. */
  lemma {:induction false} SelectAllQualify(pools: seq<Pool>, c: Criteria)
    requires forall p :: p in pools ==> Qualifies(p, c)
    ensures Select(pools, c) == pools
    decreases |pools|
  {
    if pools != [] {
      var init, last := pools[..|pools| - 1], pools[|pools| - 1];
      assert pools == init + [last];
      assert last in pools;
      assert Qualifies(last, c);
      assert forall p :: p in init ==> p in pools;
      SelectAllQualify(init, c);
      assert Select(pools, c) == Select(init, c) + [last];
    }
  }

  /** Non-increasing by APY, absent APY counted as 0. */
  predicate SortedDesc(s: seq<Pool>) {
    forall i, j :: 0 <= i < j < |s| ==> Apy(s[i]) >= Apy(s[j])
  }

  /** Places `p` before the first pool whose APY does not exceed its own. */
  function Insert(p: Pool, s: seq<Pool>): (r: seq<Pool>)
    ensures multiset(r) == multiset(s) + multiset{p}
    decreases |s|
  {
    if s == [] || Apy(s[0]) <= Apy(p) then [p] + s
    else
      assert s == [s[0]] + s[1..];
      [s[0]] + Insert(p, s[1..])
  }

  /** Inserting keeps every APY under a common bound. */
  lemma {:induction false} InsertBounded(p: Pool, s: seq<Pool>, b: real)
    requires Apy(p) <= b
    requires forall i :: 0 <= i < |s| ==> Apy(s[i]) <= b
    ensures forall i :: 0 <= i < |Insert(p, s)| ==> Apy(Insert(p, s)[i]) <= b
    decreases |s|
  {
    if s != [] && Apy(s[0]) > Apy(p) {
      InsertBounded(p, s[1..], b);
    }
  }

  lemma {:induction false} InsertSorted(p: Pool, s: seq<Pool>)
    requires SortedDesc(s)
    ensures SortedDesc(Insert(p, s))
    decreases |s|
  {
    if s == [] || Apy(s[0]) <= Apy(p) {
      var r := [p] + s;
      forall i, j | 0 <= i < j < |r| ensures Apy(r[i]) >= Apy(r[j]) {
        assert r[j] == s[j - 1];
      }
    } else {
      var t := Insert(p, s[1..]);
      InsertSorted(p, s[1..]);
      InsertBounded(p, s[1..], Apy(s[0]));
      var r := [s[0]] + t;
      forall i, j | 0 <= i < j < |r| ensures Apy(r[i]) >= Apy(r[j]) {
        assert r[j] == t[j - 1];
      }
    }
  }

  /**
   * `results.sort(key=apy, reverse=True)`: Python's sort is stable, also
   * when reversed, so pools of equal APY keep their input order. Each
   * pool is inserted in front of every later pool of equal APY.
   */
  function SortByApyDesc(s: seq<Pool>): (r: seq<Pool>)
    ensures multiset(r) == multiset(s)
    ensures SortedDesc(r)
    decreases |s|
  {
    if s == [] then []
    else
      assert s == [s[0]] + s[1..];
      var t := SortByApyDesc(s[1..]);
      InsertSorted(s[0], t);
      Insert(s[0], t)
  }

  /** The pools of `s` whose APY is `k`, in order. */
  function WithApy(s: seq<Pool>, k: real): seq<Pool>
    decreases |s|
  {
    if s == [] then [] else (if Apy(s[0]) == k then [s[0]] else []) + WithApy(s[1..], k)
  }

  /**
   * Inserting `p` keeps the order of the pools of any one APY and puts `p`
   * in front of those of its own APY: every pool it is placed after has a
   * higher APY.
   */
  lemma {:induction false} InsertStable(p: Pool, s: seq<Pool>, k: real)
    ensures WithApy(Insert(p, s), k) == (if Apy(p) == k then [p] else []) + WithApy(s, k)
    decreases |s|
  {
    if s == [] || Apy(s[0]) <= Apy(p) {
      assert ([p] + s)[0] == p && ([p] + s)[1..] == s;
    } else {
      var t := Insert(p, s[1..]);
      assert ([s[0]] + t)[0] == s[0] && ([s[0]] + t)[1..] == t;
      InsertStable(p, s[1..], k);
    }
  }

  /** Sorting does not reorder pools of equal APY. */
  lemma {:induction false} SortStable(s: seq<Pool>, k: real)
    ensures WithApy(SortByApyDesc(s), k) == WithApy(s, k)
    decreases |s|
  {
    if s != [] {
      SortStable(s[1..], k);
      InsertStable(s[0], SortByApyDesc(s[1..]), k);
    }
  }

  /** Sorting an already sorted list changes nothing. */
  lemma {:induction false} SortSortedIdentity(s: seq<Pool>)
    requires SortedDesc(s)
    ensures SortByApyDesc(s) == s
    decreases |s|
  {
    if s != [] {
      SortSortedIdentity(s[1..]);
      assert s == [s[0]] + s[1..];
    }
  }

  /** What `filter_pools` returns. */
  function Filtered(pools: seq<Pool>, c: Criteria): (r: seq<Pool>)
    ensures multiset(r) == multiset(Select(pools, c))
    ensures SortedDesc(r)
  {
    SortByApyDesc(Select(pools, c))
  }

  /**
   * The filter's output: only qualifying pools, each qualifying input pool
   * exactly as often as in the input, highest APY first, and equal-APY pools
   * in input order.
   */
  lemma FilteredSpec(pools: seq<Pool>, c: Criteria)
    ensures forall p :: p in Filtered(pools, c) ==> p in pools && Qualifies(p, c)
    ensures forall p :: multiset(Filtered(pools, c))[p] == if Qualifies(p, c) then multiset(pools)[p] else 0
    ensures multiset(Filtered(pools, c)) == multiset(Select(pools, c))
    ensures SortedDesc(Filtered(pools, c))
    ensures forall k :: WithApy(Filtered(pools, c), k) == WithApy(Select(pools, c), k)
  {
    var sel := Select(pools, c);
    forall p ensures multiset(Filtered(pools, c))[p] == if Qualifies(p, c) then multiset(pools)[p] else 0 {
      SelectCounts(pools, c, p);
    }
    forall p | p in Filtered(pools, c) ensures p in pools && Qualifies(p, c) {
      assert p in multiset(Filtered(pools, c));
      assert p in multiset(sel);
    }
    forall k ensures WithApy(Filtered(pools, c), k) == WithApy(sel, k) {
      SortStable(sel, k);
    }
  }

  /** The chain constraint ignores case: "base" and "BASE" select the same pools. */
  lemma {:induction false} SelectChainIgnoresCase(pools: seq<Pool>, c: Criteria, name1: string, name2: string)
    requires Lower(name1) == Lower(name2)
    ensures Select(pools, c.(chain := Some(name1))) == Select(pools, c.(chain := Some(name2)))
    decreases |pools|
  {
    if pools != [] {
      var p := pools[|pools| - 1];
      assert |name1| == |Lower(name1)| == |Lower(name2)| == |name2|;
      assert Qualifies(p, c.(chain := Some(name1))) == Qualifies(p, c.(chain := Some(name2)));
      SelectChainIgnoresCase(pools[..|pools| - 1], c, name1, name2);
    }
  }

  /** Filtering an already filtered list with the same constraints returns it unchanged. */
  lemma FilterIdempotent(pools: seq<Pool>, c: Criteria)
    ensures Filtered(Filtered(pools, c), c) == Filtered(pools, c)
  {
    var once := Filtered(pools, c);
    FilteredSpec(pools, c);
    SelectAllQualify(once, c);
    SortSortedIdentity(once);
  }

  /** `filter_pools`: the guarded append loop, then the in-place sort. */
  method FilterPools(pools: seq<Pool>, c: Criteria) returns (results: seq<Pool>)
    ensures results == Filtered(pools, c)
  {
    results := [];
    for i := 0 to |pools|
      invariant results == Select(pools[..i], c)
    {
      var p := pools[i];
      assert pools[..i + 1][..i] == pools[..i];
      if !IsUsdcPool(p) {
        continue;
      }
      if Given(c.chain) && Lower(p.chain) != Lower(c.chain.value) {
        continue;
      }
      if Given(c.protocol) && p.project != c.protocol.value {
        continue;
      }
      var tvl := Tvl(p);
      if tvl < c.minTvl {
        continue;
      }
      results := results + [p];
    }
    assert pools[..|pools|] == pools;
    results := SortByApyDesc(results);
  }

  /** `args.top or 20`: a count of 0 means the default of 20. */
  function TopCount(top: int): (n: int)
    ensures top == 0 ==> n == 20
    ensures top != 0 ==> n == top
  {
    if top == 0 then 20 else top
  }

  /** Python's `s[:n]`: a negative `n` drops `-n` pools from the end. */
  function Head(s: seq<Pool>, n: int): (r: seq<Pool>)
    ensures 0 <= n ==> |r| == if n <= |s| then n else |s|
    ensures n < 0 ==> |r| == if |s| + n >= 0 then |s| + n else 0
    ensures r == s[..|r|]
  {
    if 0 <= n then (if n <= |s| then s[..n] else s)
    else (if |s| + n >= 0 then s[..|s| + n] else [])
  }

  /**
   * The pools the scan command shows: the filter's output cut to the
   * requested count, so still qualifying and highest APY first.
   */
  method Scan(pools: seq<Pool>, c: Criteria, top: int) returns (shown: seq<Pool>)
    ensures shown == Head(Filtered(pools, c), TopCount(top))
    ensures forall p :: p in shown ==> p in pools && Qualifies(p, c)
    ensures SortedDesc(shown)
    ensures top >= 0 ==> |shown| == Min(TopCount(top), |Filtered(pools, c)|)
  {
    var filtered := FilterPools(pools, c);
    FilteredSpec(pools, c);
    shown := Head(filtered, TopCount(top));
    assert forall p :: p in shown ==> p in filtered;
  }

  function Min(a: int, b: int): int {
    if a <= b then a else b
  }
}
