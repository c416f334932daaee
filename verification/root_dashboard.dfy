/**
 * dashboard.py as a whole: the sidebar's date window applied to the
 * orders and product extracts, and the tables behind each chart. Its RFM
 * panels read the precomputed `rfm_df`, which the window does not touch.
 */
module RootDashboard {
  import opened Ranking
  import opened GroupBy
  import opened DateFilter
  import opened Rfm
  import opened Rollups

  /** The tables the charts are drawn from. */
  datatype View = View(
    monthlyDelivered: seq<Entry<int>>,
    bestProducts: seq<Entry<string>>,
    worstProducts: seq<Entry<string>>,
    hourlyCounts: seq<Entry<int>>,
    topRevenue: seq<Entry<string>>,
    topRecency: seq<RfmRow>,
    topFrequency: seq<RfmRow>,
    topMonetary: seq<RfmRow>)

  /** `main_orders` (lines 40-41). */
  function MainOrders(orders: seq<Order>, start: int, end: int): seq<Order>
  {
    FilterByDate(orders, OrderPlacedAt, start, end)
  }

  /** `main_product_order` (lines 43-44). */
  function MainProductLines(lines: seq<ProductLine>, start: int, end: int): seq<ProductLine>
  {
    FilterByDate(lines, LinePlacedAt, start, end)
  }

  /**
   * `v` is what the script computes for the window [start, end], up to
   * the order it gives to rows whose sort keys tie.
   */
  ghost predicate IsView(v: View, orders: seq<Order>, lines: seq<ProductLine>, rfmDf: seq<RfmRow>, start: int, end: int)
  {
    var mo, mp := MainOrders(orders, start, end), MainProductLines(lines, start, end);
    && v.monthlyDelivered == MonthlyDelivered(mo)
    && ProductPanelsOf(v, OrdersPerCategory(mp))
    && v.hourlyCounts == HourlyCounts(mo)
    && IsSortedHead(v.topRevenue, RevenuePerCategory(mp), ValueOf, false, 10)
    && RfmPanelsOf(v, rfmDf)
  }

  /**
   * Lines 97-103: the counts sorted descending, their head(5) as it is and
   * their tail(5) re-sorted ascending.
   */
  ghost predicate ProductPanelsOf(v: View, c: seq<Entry<string>>)
  {
    exists counts :: IsSortValues(counts, c, ValueOf, false)
                     && v.bestProducts == Head(counts, 5)
                     && IsSortValues(v.worstProducts, Tail(counts, 5), ValueOf, true)
  }

  /** The RFM panels (lines 146-152): top five of `rfm_df` by each metric. */
  ghost predicate RfmPanelsOf(v: View, rfmDf: seq<RfmRow>)
  {
    && IsSortedHead(v.topRecency, rfmDf, RecencyOf, true, 5)
    && IsSortedHead(v.topFrequency, rfmDf, FrequencyOf, false, 5)
    && IsSortedHead(v.topMonetary, rfmDf, MonetaryOf, false, 5)
  }

  /** The script run once, with insertion sort breaking ties. */
  function Render(orders: seq<Order>, lines: seq<ProductLine>, rfmDf: seq<RfmRow>, start: int, end: int): (v: View)
    ensures IsView(v, orders, lines, rfmDf, start, end)
  {
    var mo, mp := MainOrders(orders, start, end), MainProductLines(lines, start, end);
    var counts := SortBy(OrdersPerCategory(mp), ValueOf, false);
    var rev := RevenuePerCategory(mp);
    SortedHeadExists(rev, ValueOf, false, 10);
    SortedHeadExists(rfmDf, RecencyOf, true, 5);
    SortedHeadExists(rfmDf, FrequencyOf, false, 5);
    SortedHeadExists(rfmDf, MonetaryOf, false, 5);
    View(MonthlyDelivered(mo), Head(counts, 5), SortBy(Tail(counts, 5), ValueOf, true), HourlyCounts(mo),
         Head(SortBy(rev, ValueOf, false), 10),
         Head(SortBy(rfmDf, RecencyOf, true), 5),
         Head(SortBy(rfmDf, FrequencyOf, false), 5),
         Head(SortBy(rfmDf, MonetaryOf, false), 5))
  }

  /**
   * The product panels (lines 97-103), for `c` the per-category
   * distinct-order counts of the window: best and worst five categories, each min(5, categories) long and drawn from the
   * counts; the best panel is in descending order and no best category has
   * fewer orders than one left out, the worst is in ascending order and no
   * worst category has more; the panels overlap below ten categories and
   * are disjoint from ten on.
   */
  lemma ProductPanels(v: View, c: seq<Entry<string>>)
    requires ProductPanelsOf(v, c)
    ensures |v.bestProducts| == Min(5, |c|) && |v.worstProducts| == Min(5, |c|)
    ensures multiset(v.bestProducts) <= multiset(c) && multiset(v.worstProducts) <= multiset(c)
    ensures SortedBy(v.bestProducts, ValueOf, false) && SortedBy(v.worstProducts, ValueOf, true)
    ensures forall x, y :: x in v.bestProducts && y in multiset(c) - multiset(v.bestProducts) ==> x.value >= y.value
    ensures forall x, y :: y in v.worstProducts && x in multiset(c) - multiset(v.worstProducts) ==> x.value >= y.value
    ensures 0 < |c| < 10 ==> exists x :: x in v.bestProducts && x in v.worstProducts
    ensures |c| >= 10 ==> multiset(v.bestProducts) + multiset(v.worstProducts) <= multiset(c)
  {
    var counts :| IsSortValues(counts, c, ValueOf, false)
                  && v.bestProducts == Head(counts, 5)
                  && IsSortValues(v.worstProducts, Tail(counts, 5), ValueOf, true);
    HeadOfSorted(counts, ValueOf, false, 5);
    assert IsSortValues(v.bestProducts, Head(counts, 5), ValueOf, false);
    CountPanels(c, counts, v.bestProducts, v.worstProducts);
  }

  /** The RFM panels are the same whatever window the sidebar selects. */
  lemma RfmPanelsIgnoreWindow(orders: seq<Order>, lines: seq<ProductLine>, rfmDf: seq<RfmRow>,
                              s1: int, e1: int, s2: int, e2: int)
    ensures var v, w := Render(orders, lines, rfmDf, s1, e1), Render(orders, lines, rfmDf, s2, e2);
      v.topRecency == w.topRecency && v.topFrequency == w.topFrequency && v.topMonetary == w.topMonetary
  {
  }

  /**
   * Each RFM panel shows min(5, customers) rows of `rfm_df`, in order of
   * its metric, none ranked behind a row it leaves out.
   */
  lemma RfmPanelsSpec(v: View, rfmDf: seq<RfmRow>)
    requires RfmPanelsOf(v, rfmDf)
    ensures |v.topRecency| == Min(5, |rfmDf|) && |v.topFrequency| == Min(5, |rfmDf|) && |v.topMonetary| == Min(5, |rfmDf|)
    ensures multiset(v.topRecency) <= multiset(rfmDf) && SortedBy(v.topRecency, RecencyOf, true)
    ensures forall x, y :: x in v.topRecency && y in multiset(rfmDf) - multiset(v.topRecency) ==> x.recency <= y.recency
    ensures multiset(v.topFrequency) <= multiset(rfmDf) && SortedBy(v.topFrequency, FrequencyOf, false)
    ensures forall x, y :: x in v.topFrequency && y in multiset(rfmDf) - multiset(v.topFrequency) ==> x.frequency >= y.frequency
    ensures multiset(v.topMonetary) <= multiset(rfmDf) && SortedBy(v.topMonetary, MonetaryOf, false)
    ensures forall x, y :: x in v.topMonetary && y in multiset(rfmDf) - multiset(v.topMonetary) ==> x.monetary >= y.monetary
  {
    SortedHeadSpec(v.topRecency, rfmDf, RecencyOf, true, 5);
    SortedHeadSpec(v.topFrequency, rfmDf, FrequencyOf, false, 5);
    SortedHeadSpec(v.topMonetary, rfmDf, MonetaryOf, false, 5);
  }
}
