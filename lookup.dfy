/**
 * Display-shortened pool identifiers and the prefix lookup that accepts
 * them back.
 */
module Lookup {
  import opened Options
  import opened Text
  import opened Pools

  const ShortIdLength: nat := 12

  /** Appending dots does not change what `rstrip(".")` leaves. */
  lemma {:induction false} RStripDotsIgnoresTrailingDots(s: string, n: nat)
    ensures RStripDots(s + seq(n, _ => '.')) == RStripDots(s)
  {
    if n > 0 {
      var t := s + seq(n, _ => '.');
      assert t[..|t| - 1] == s + seq(n - 1, _ => '.');
      RStripDotsIgnoresTrailingDots(s, n - 1);
    } else {
      assert s + seq(0, _ => '.') == s;
    }
  }

  /**
   * `short_id`: identifiers longer than 12 characters are cut to 12 and
   * marked with "...". With the dots stripped again, what remains is a
   * prefix of the identifier.
   */
  function ShortId(id: string): (r: string)
    ensures |id| <= ShortIdLength ==> r == id
    ensures |id| > ShortIdLength ==> |r| == ShortIdLength + 3 && r[..ShortIdLength] == id[..ShortIdLength] && r[ShortIdLength..] == "..."
    ensures StartsWith(id, RStripDots(r))
  {
    if |id| > ShortIdLength then
      var r := id[..ShortIdLength] + "...";
      assert "..." == seq(3, _ => '.');
      RStripDotsIgnoresTrailingDots(id[..ShortIdLength], 3);
      assert StartsWith(id[..ShortIdLength], RStripDots(r));
      r
    else
      id
  }

  /** `pid == pool_id or pid.startswith(pool_id)`: the equality is implied by the prefix test. */
  predicate Matches(p: Pool, query: string): (r: bool)
    ensures r <==> StartsWith(p.id, query)
  {
    p.id == query || StartsWith(p.id, query)
  }

  /** Position of the first pool whose identifier starts with `query`. */
  function FirstMatch(pools: seq<Pool>, query: string): (r: Option<nat>)
    ensures r.None? <==> forall i :: 0 <= i < |pools| ==> !Matches(pools[i], query)
    ensures r.Some? ==> r.value < |pools| && Matches(pools[r.value], query)
    ensures r.Some? ==> forall j :: 0 <= j < r.value ==> !Matches(pools[j], query)
    decreases |pools|
  {
    if pools == [] then None
    else if Matches(pools[0], query) then Some(0)
    else
      match FirstMatch(pools[1..], query)
      case None => None
      case Some(k) => Some(k + 1)
  }

  /** What `find_pool_by_id` returns. */
  function FindPool(pools: seq<Pool>, poolId: string): (r: Option<Pool>)
    ensures r.None? <==> forall i :: 0 <= i < |pools| ==> !StartsWith(pools[i].id, RStripDots(poolId))
    ensures r.Some? ==> r.value in pools && StartsWith(r.value.id, RStripDots(poolId))
  {
    match FirstMatch(pools, RStripDots(poolId))
    case None => None
    case Some(k) => Some(pools[k])
  }

  /** `find_pool_by_id`: strip trailing dots, then scan for the first prefix match. */
  method FindPoolById(pools: seq<Pool>, poolId: string) returns (r: Option<Pool>)
    ensures r == FindPool(pools, poolId)
    ensures r.None? <==> forall i :: 0 <= i < |pools| ==> !StartsWith(pools[i].id, RStripDots(poolId))
    ensures r.Some? ==> exists k :: 0 <= k < |pools| && r.value == pools[k] && StartsWith(pools[k].id, RStripDots(poolId))
                          && forall j :: 0 <= j < k ==> !StartsWith(pools[j].id, RStripDots(poolId))
  {
    var query := RStripDots(poolId);
    for i := 0 to |pools|
      invariant forall j :: 0 <= j < i ==> !Matches(pools[j], query)
    {
      var pid := pools[i].id;
      if pid == query || StartsWith(pid, query) {
        assert Matches(pools[i], query);
        return Some(pools[i]);
      }
    }
    return None;
  }

  /**
   * A shortened identifier of a listed pool always resolves, to that pool
   * or to an earlier one sharing its dot-stripped 12-character prefix.
   */
  lemma ShortIdResolves(pools: seq<Pool>, k: nat)
    requires k < |pools|
    ensures var query := RStripDots(ShortId(pools[k].id));
      && FirstMatch(pools, query).Some?
      && FirstMatch(pools, query).value <= k
      && StartsWith(FindPool(pools, ShortId(pools[k].id)).value.id, query)
  {
    var query := RStripDots(ShortId(pools[k].id));
    assert Matches(pools[k], query);
  }

  /** A query of dots only strips to "" and resolves to the first pool. */
  lemma {:induction false} DotsQueryMatchesFirst(pools: seq<Pool>, query: string)
    requires |pools| > 0
    requires forall i :: 0 <= i < |query| ==> query[i] == '.'
    ensures FindPool(pools, query) == Some(pools[0])
  {
    var q := RStripDots(query);
    assert q == "";
    assert Matches(pools[0], q);
  }

  /** A query that prefixes a listed identifier resolves, never past that pool, trailing dots or not. */
  lemma PrefixResolves(pools: seq<Pool>, k: nat, query: string)
    requires k < |pools|
    requires StartsWith(pools[k].id, query)
    ensures FirstMatch(pools, RStripDots(query)).Some? && FirstMatch(pools, RStripDots(query)).value <= k
  {
    var q := RStripDots(query);
    assert pools[k].id[..|q|] == query[..|q|] == q;
    assert Matches(pools[k], q);
  }
}
