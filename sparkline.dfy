/**
 * The trend strip of the history report: each yield becomes one of eight
 * bar glyphs by linear scaling between the window's minimum and maximum.
 */
module Sparkline {
  import opened Series

  /** Index 0 is a blank; indices 1 to 8 are the bars from lowest to full. */
  const Bars: string := " \U{2581}\U{2582}\U{2583}\U{2584}\U{2585}\U{2586}\U{2587}\U{2588}"

  /** `hi - lo if hi != lo else 1`. */
  function Span(lo: real, hi: real): (r: real)
    requires lo <= hi
    ensures r > 0.0
  {
    if hi != lo then hi - lo else 1.0
  }

  /** `min(int((v - lo) / rng * 7) + 1, 8)`; `int` truncates, which is `Floor` on a non-negative value. */
  function Level(v: real, lo: real, hi: real): (r: int)
    requires lo <= v <= hi
    ensures 1 <= r <= 8
    ensures v == lo ==> r == 1
    ensures lo < hi && v == hi ==> r == 8
  {
    var x := (v - lo) / Span(lo, hi) * 7.0;
    ScaledInUnit(v, lo, hi);
    var b := x.Floor + 1;
    if b < 8 then b else 8
  }

  /** The scaled position lies in [0, 7], at 0 for the minimum and at 7 for a distinct maximum. */
  lemma ScaledInUnit(v: real, lo: real, hi: real)
    requires lo <= v <= hi
    ensures 0.0 <= (v - lo) / Span(lo, hi) * 7.0 <= 7.0
    ensures v == lo ==> (v - lo) / Span(lo, hi) * 7.0 == 0.0
    ensures lo < hi && v == hi ==> (v - lo) / Span(lo, hi) * 7.0 == 7.0
  {
    var d := Span(lo, hi);
    var q := (v - lo) / d;
    assert q * d == v - lo;
    if hi != lo {
      assert (1.0 - q) * d == hi - v;
    } else {
      assert v - lo == 0.0;
    }
  }

  /** Bucketing preserves order: a larger value never gets a lower bar. */
  lemma LevelMonotone(v: real, w: real, lo: real, hi: real)
    requires lo <= v <= w <= hi
    ensures Level(v, lo, hi) <= Level(w, lo, hi)
  {
    var d := Span(lo, hi);
    var qv, qw := (v - lo) / d, (w - lo) / d;
    assert qv * d == v - lo && qw * d == w - lo;
    assert (qw - qv) * d == w - v;
    assert qv <= qw;
    assert qv * 7.0 <= qw * 7.0;
  }

  /** The bar index of every value, in order. */
  function Levels(values: seq<real>): (r: seq<int>)
    ensures |r| == |values|
    ensures forall i :: 0 <= i < |r| ==> 1 <= r[i] <= 8
    ensures forall i :: 0 <= i < |r| ==> r[i] == Level(values[i], MinOf(values), MaxOf(values))
  {
    if values == [] then []
    else
      var lo, hi := MinOf(values), MaxOf(values);
      seq(|values|, i requires 0 <= i < |values| => Level(values[i], lo, hi))
  }

  /** `sparkline`: one glyph per value, "" for no values. */
  function Render(values: seq<real>): (r: string)
    ensures |r| == |values|
    ensures forall i :: 0 <= i < |r| ==> r[i] != ' '
    ensures forall i :: 0 <= i < |r| ==> r[i] == Bars[Levels(values)[i]]
  {
    var levels := Levels(values);
    seq(|values|, i requires 0 <= i < |values| => Bars[levels[i]])
  }

  /** When the values are not all equal, a minimum gets the lowest bar and a maximum the full one. */
  lemma ExtremesGetExtremeBars(values: seq<real>, i: nat, j: nat)
    requires i < |values| && j < |values|
    requires values[i] == MinOf(values) && values[j] == MaxOf(values)
    requires MinOf(values) != MaxOf(values)
    ensures Levels(values)[i] == 1 && Levels(values)[j] == 8
    ensures Render(values)[i] == Bars[1] && Render(values)[j] == Bars[8]
  {
  }

  /** A flat series gets the lowest bar throughout. */
  lemma FlatSeriesLowestBar(values: seq<real>, c: real)
    requires forall i :: 0 <= i < |values| ==> values[i] == c
    ensures forall i :: 0 <= i < |values| ==> Levels(values)[i] == 1
  {
    if values != [] {
      assert MinOf(values) == c;
    }
  }

  /** The levels are ordered as the values are. */
  lemma LevelsMonotone(values: seq<real>, i: nat, j: nat)
    requires i < |values| && j < |values| && values[i] <= values[j]
    ensures Levels(values)[i] <= Levels(values)[j]
  {
    LevelMonotone(values[i], values[j], MinOf(values), MaxOf(values));
  }
}
