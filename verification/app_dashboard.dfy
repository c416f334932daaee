/**
 * dashboard/dashboard.py as a whole: the sidebar's date window applied to
 * the three extracts, and the tables behind each of its charts.
 */
module AppDashboard {
  import opened Ranking
  import opened GroupBy
  import opened Calendar
  import opened DateFilter
  import opened Rfm
  import opened Rollups

  /** The tables the charts are drawn from. */
  datatype View = View(
    monthlyDelivered: seq<Entry<int>>,
    topProducts: seq<Entry<string>>,
    bottomProducts: seq<Entry<string>>,
    hourlyCounts: seq<Entry<int>>,
    topRevenue: seq<Entry<string>>,
    rfm: seq<RfmRow>,
    topRecency: seq<PlotRow>,
    topFrequency: seq<PlotRow>,
    topMonetary: seq<PlotRow>)

  /** `main_orders` (lines 44-45). */
  function MainOrders(orders: seq<Order>, start: int, end: int): seq<Order>
  {
    FilterByDate(orders, OrderPlacedAt, start, end)
  }

  /** `main_product_order` (lines 47-48). */
  function MainProductLines(lines: seq<ProductLine>, start: int, end: int): seq<ProductLine>
  {
    FilterByDate(lines, LinePlacedAt, start, end)
  }

  /** `main_rfm_raw_data` (lines 50-51). */
  function MainRfmRaw(raw: seq<LineItem>, start: int, end: int): seq<LineItem>
  {
    FilterByDate(raw, PurchasedAt, start, end)
  }

  /**
   * `v` is what the script computes for the window [start, end], up to
   * the order it gives to rows whose sort keys tie.
   */
  ghost predicate IsView(v: View, orders: seq<Order>, lines: seq<ProductLine>, raw: seq<LineItem>, start: int, end: int)
  {
    var mo, mp, mr := MainOrders(orders, start, end), MainProductLines(lines, start, end), MainRfmRaw(raw, start, end);
    && v.monthlyDelivered == MonthlyDelivered(mo)
    && ProductPanelsOf(v, LinesPerCategory(mp))
    && v.hourlyCounts == HourlyCounts(mo)
    && IsSortedHead(v.topRevenue, RevenuePerCategory(mp), ValueOf, false, 10)
    && v.rfm == RfmTable(mr)
    && IsSortedHead(v.topRecency, WithShortIds(v.rfm), PlotRecency, true, 5)
    && IsSortedHead(v.topFrequency, WithShortIds(v.rfm), PlotFrequency, false, 5)
    && IsSortedHead(v.topMonetary, WithShortIds(v.rfm), PlotMonetary, false, 5)
  }

  /**
   * Lines 106-109: the counts sorted descending, their head(5) re-sorted
   * descending and their tail(5) re-sorted ascending.
   */
  ghost predicate ProductPanelsOf(v: View, c: seq<Entry<string>>)
  {
    exists counts :: IsSortValues(counts, c, ValueOf, false)
                     && IsSortValues(v.topProducts, Head(counts, 5), ValueOf, false)
                     && IsSortValues(v.bottomProducts, Tail(counts, 5), ValueOf, true)
  }

  /** The script run once, with insertion sort breaking ties. */
  function Render(orders: seq<Order>, lines: seq<ProductLine>, raw: seq<LineItem>, start: int, end: int): (v: View)
    ensures IsView(v, orders, lines, raw, start, end)
  {
    var mo, mp, mr := MainOrders(orders, start, end), MainProductLines(lines, start, end), MainRfmRaw(raw, start, end);
    var counts := SortBy(LinesPerCategory(mp), ValueOf, false);
    var rev := RevenuePerCategory(mp);
    var plot := WithShortIds(RfmTable(mr));
    var top, bottom := SortBy(Head(counts, 5), ValueOf, false), SortBy(Tail(counts, 5), ValueOf, true);
    SortedHeadExists(rev, ValueOf, false, 10);
    SortedHeadExists(plot, PlotRecency, true, 5);
    SortedHeadExists(plot, PlotFrequency, false, 5);
    SortedHeadExists(plot, PlotMonetary, false, 5);
    View(MonthlyDelivered(mo), top, bottom, HourlyCounts(mo),
         Head(SortBy(rev, ValueOf, false), 10),
         RfmTable(mr),
         Head(SortBy(plot, PlotRecency, true), 5),
         Head(SortBy(plot, PlotFrequency, false), 5),
         Head(SortBy(plot, PlotMonetary, false), 5))
  }

  /**
   * The product panels (lines 106-109), for `c` the per-category line
   * counts of the window: five best and five worst categories by product
   * lines sold, each min(5, categories) long and
   * drawn from the counts; no best category sold fewer lines than one left
   * out, no worst category more; the panels share a category when there
   * are fewer than ten, and are disjoint from ten on.
   */
  lemma ProductPanels(v: View, c: seq<Entry<string>>)
    requires ProductPanelsOf(v, c)
    ensures |v.topProducts| == Min(5, |c|) && |v.bottomProducts| == Min(5, |c|)
    ensures multiset(v.topProducts) <= multiset(c) && multiset(v.bottomProducts) <= multiset(c)
    ensures SortedBy(v.topProducts, ValueOf, false) && SortedBy(v.bottomProducts, ValueOf, true)
    ensures forall x, y :: x in v.topProducts && y in multiset(c) - multiset(v.topProducts) ==> x.value >= y.value
    ensures forall x, y :: y in v.bottomProducts && x in multiset(c) - multiset(v.bottomProducts) ==> x.value >= y.value
    ensures 0 < |c| < 10 ==> exists x :: x in v.topProducts && x in v.bottomProducts
    ensures |c| >= 10 ==> multiset(v.topProducts) + multiset(v.bottomProducts) <= multiset(c)
  {
    var counts :| IsSortValues(counts, c, ValueOf, false)
                  && IsSortValues(v.topProducts, Head(counts, 5), ValueOf, false)
                  && IsSortValues(v.bottomProducts, Tail(counts, 5), ValueOf, true);
    CountPanels(c, counts, v.topProducts, v.bottomProducts);
  }

  /**
   * The RFM panels (lines 203-225): each shows min(5, customers of the
   * window) rows of the table; for a non-empty window the recency panel
   * starts at one day.
   */
  lemma RfmPanels(v: View, orders: seq<Order>, lines: seq<ProductLine>, raw: seq<LineItem>, start: int, end: int)
    requires IsView(v, orders, lines, raw, start, end)
    ensures var n := |Customers(MainRfmRaw(raw, start, end))|;
      |v.topRecency| == Min(5, n) && |v.topFrequency| == Min(5, n) && |v.topMonetary| == Min(5, n)
    ensures MainRfmRaw(raw, start, end) != [] ==> |v.topRecency| >= 1 && v.topRecency[0].rfm.recency == 1
  {
    var mr := MainRfmRaw(raw, start, end);
    var p := WithShortIds(v.rfm);
    SortedHeadSpec(v.topRecency, p, PlotRecency, true, 5);
    SortedHeadSpec(v.topFrequency, p, PlotFrequency, false, 5);
    SortedHeadSpec(v.topMonetary, p, PlotMonetary, false, 5);
    if mr != [] {
      TopRecencyStartsAtOne(mr, v.topRecency);
    }
  }

  /**
   * What the window keeps, in calendar days: a row is shown exactly when
   * its purchase day lies in [start, end) or it was placed at the very
   * midnight opening `end`; later purchases on the end day are left out.
   */
  lemma WindowKeeps(orders: seq<Order>, start: int, end: int, o: Order)
    ensures o in MainOrders(orders, start, end) <==>
            o in orders && ((start <= DayOf(o.purchaseTimestamp) < end) || (start <= end && o.purchaseTimestamp == Midnight(end)))
  {
    WindowByDay(o.purchaseTimestamp, start, end);
  }
}
