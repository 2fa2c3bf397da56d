/**
 * The reason bar chart: nothing for an empty list, otherwise one bar per
 * reason whose width is its count as a percentage of the largest count.
 */
module ReasonChart {
  import opened Wrappers
  import opened Insights

  function Counts(reasons: seq<ReasonCount>): (cs: seq<nat>)
    ensures |cs| == |reasons|
    ensures forall i :: 0 <= i < |reasons| ==> cs[i] == reasons[i].count
  {
    seq(|reasons|, i requires 0 <= i < |reasons| => reasons[i].count)
  }

  /** `Math.max(...reasons.map(r => r.count))`. */
  function MaxCount(reasons: seq<ReasonCount>): (m: nat)
    requires reasons != []
    ensures forall i :: 0 <= i < |reasons| ==> reasons[i].count <= m
    ensures exists i :: 0 <= i < |reasons| && reasons[i].count == m
  {
    var cs := Counts(reasons);
    var m := MaxOf(cs);
    var k :| 0 <= k < |cs| && cs[k] == m;
    assert reasons[k].count == m;
    m
  }

  /** `(count / maxCount) * 100`. */
  function Width(count: nat, maxCount: nat): (w: real)
    requires maxCount > 0
    ensures w * maxCount as real == count as real * 100.0
  {
    (count as real / maxCount as real) * 100.0
  }

  /** Some count is positive, so the widths are defined (0 / 0 would be NaN). */
  predicate Drawable(reasons: seq<ReasonCount>) {
    exists i :: 0 <= i < |reasons| && reasons[i].count > 0
  }

  /**
   * The chart: `None` (nothing rendered) for an empty list, otherwise the
   * width of each bar, in list order.
   */
  function Widths(reasons: seq<ReasonCount>): (ws: Option<seq<real>>)
    requires reasons == [] || Drawable(reasons)
    ensures ws.None? <==> reasons == []
    ensures ws.Some? ==> |ws.value| == |reasons|
    ensures ws.Some? ==> forall i :: 0 <= i < |reasons| ==> ws.value[i] == Width(reasons[i].count, MaxCount(reasons))
  {
    if reasons == [] then None
    else
      var m := MaxCount(reasons);
      Some(seq(|reasons|, i requires 0 <= i < |reasons| && m > 0 => Width(reasons[i].count, m)))
  }

  /** Every bar with the largest count is drawn at 100%, so a single reason always is. */
  lemma MaxBarIsFull(reasons: seq<ReasonCount>, i: nat)
    requires Drawable(reasons) && i < |reasons| && reasons[i].count == MaxCount(reasons)
    ensures Widths(reasons).value[i] == 100.0
  {
    var m := MaxCount(reasons);
    var k :| 0 <= k < |reasons| && reasons[k].count > 0;
    assert reasons[k].count <= m;
    WidthOfMax(m);
  }

  lemma WidthOfMax(m: nat)
    requires m > 0
    ensures Width(m, m) == 100.0
  {
    assert m as real / m as real == 1.0;
  }

  lemma RatioAtMostOne(a: real, m: real)
    requires 0.0 < a <= m
    ensures 0.0 < a / m <= 1.0
  {
    assert (a / m) * m == a;
  }

  /** With positive counts every width lies in (0, 100]. */
  lemma WidthInRange(reasons: seq<ReasonCount>, i: nat)
    requires i < |reasons| && forall k :: 0 <= k < |reasons| ==> reasons[k].count > 0
    ensures Drawable(reasons)
    ensures 0.0 < Widths(reasons).value[i] <= 100.0
  {
    assert reasons[0].count > 0;
    RatioAtMostOne(reasons[i].count as real, MaxCount(reasons) as real);
  }

  lemma RatioOrder(a: real, b: real, m: real)
    requires m > 0.0
    ensures a <= b <==> a / m <= b / m
  {
    assert (a / m) * m == a && (b / m) * m == b;
  }

  /** Bar widths are ordered exactly as the counts are. */
  lemma WidthFollowsCount(reasons: seq<ReasonCount>, i: nat, j: nat)
    requires Drawable(reasons) && i < |reasons| && j < |reasons|
    ensures reasons[i].count <= reasons[j].count <==> Widths(reasons).value[i] <= Widths(reasons).value[j]
  {
    RatioOrder(reasons[i].count as real, reasons[j].count as real, MaxCount(reasons) as real);
  }

  /** Counts 10 and 5 draw bars of 100% and 50%. */
  lemma WidthExample()
    ensures Drawable([ReasonCount("work", 10), ReasonCount("phone", 5)])
    ensures Widths([ReasonCount("work", 10), ReasonCount("phone", 5)]) == Some([100.0, 50.0])
  {
    var rs := [ReasonCount("work", 10), ReasonCount("phone", 5)];
    assert rs[0].count > 0;
    assert MaxCount(rs) == 10;
    var ws := Widths(rs).value;
    assert ws[0] == Width(10, 10) == 100.0;
    assert 5.0 / 10.0 == 0.5;
    assert ws[1] == Width(5, 10) == 50.0;
    assert ws == [100.0, 50.0];
  }
}
