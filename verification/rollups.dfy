/**
 * The counting and summing roll-ups under the trend, product, hour and
 * revenue charts of both dashboards. Each is a group-by over the
 * date-filtered orders or product lines.
 */
module Rollups {
  import opened Wrappers
  import opened Frames
  import opened Ranking
  import opened GroupBy
  import opened Calendar

  /** A row of the orders extract. `purchase_hour` may be missing. */
  datatype Order = Order(orderId: string, status: string, purchaseTimestamp: int, purchaseHour: Option<int>)

  /** A row of the product/order-item extract: one product line; prices in cents. */
  datatype ProductLine = ProductLine(orderId: string, category: Option<string>, price: int, purchaseTimestamp: int)

  function OrderIdOf(o: Order): string { o.orderId }

  function OrderPlacedAt(o: Order): int { o.purchaseTimestamp }

  function HourOf(o: Order): Option<int> { o.purchaseHour }

  function LineOrderOf(x: ProductLine): string { x.orderId }

  function CategoryOf(x: ProductLine): Option<string> { x.category }

  function LinePriceOf(x: ProductLine): int { x.price }

  function LinePlacedAt(x: ProductLine): int { x.purchaseTimestamp }

  /** `size()` / `value_counts()`: the number of rows of a group. */
  function Count<T>(g: seq<T>): int { |g| }

  /** `order_id.nunique()` over a group of orders. */
  function DistinctOrders(g: seq<Order>): int { |Values(g, OrderIdOf)| }

  /** `order_id.nunique()` over a group of product lines. */
  function DistinctLineOrders(g: seq<ProductLine>): int { |Values(g, LineOrderOf)| }

  /** `price.sum()` over a group of product lines. */
  function Revenue(g: seq<ProductLine>): int { Sum(g, LinePriceOf) }

  /** Counting is summing a weight of one per row. */
  lemma CountIsSum<T>()
    ensures forall g: seq<T> :: Count(g) == Sum(g, One)
  {
    forall g: seq<T> ensures Count(g) == Sum(g, One) {
      SumOne(g);
    }
  }

  // ----- monthly delivered orders (dashboard.py:56-70, dashboard/dashboard.py:64-78) -----

  predicate IsDelivered(o: Order) { o.status == "delivered" }

  /** `dt.to_period('M')` of the purchase timestamp, as a group key. */
  function PurchaseMonth(o: Order): Option<int> { Some(MonthOf(o.purchaseTimestamp)) }

  function DeliveredOrders(orders: seq<Order>): seq<Order>
  {
    Filter(orders, IsDelivered)
  }

  /**
   * `monthly_delivered`: per purchase month, the number of distinct
   * delivered order ids; the group-by lists months in ascending order.
   */
  function MonthlyDelivered(orders: seq<Order>): seq<Entry<int>>
  {
    SortBy(GroupAgg(DeliveredOrders(orders), PurchaseMonth, DistinctOrders), KeyOf, true)
  }

  /** The ids of the delivered orders placed in month `m`, straight from the rows. */
  ghost function DeliveredIdsIn(orders: seq<Order>, m: int): set<string>
  {
    set o | o in orders && IsDelivered(o) && MonthOf(o.purchaseTimestamp) == m :: o.orderId
  }

  lemma MonthGroupIds(orders: seq<Order>, m: int)
    ensures Values(Select(DeliveredOrders(orders), PurchaseMonth, m), OrderIdOf) == DeliveredIdsIn(orders, m)
  {
    ValuesSpec(Select(DeliveredOrders(orders), PurchaseMonth, m), OrderIdOf);
  }

  /** A table sorted ascending by key from a table of distinct keys has strictly increasing keys. */
  lemma AscendingKeys(t: seq<Entry<int>>, g: seq<Entry<int>>)
    requires IsSortValues(t, g, KeyOf, true) && DistinctBy(g, KeyOf)
    ensures forall i, j :: 0 <= i < j < |t| ==> t[i].key < t[j].key
    ensures forall e :: e in t <==> e in g
    ensures forall k :: HasKey(t, k) <==> HasKey(g, k)
  {
    DistinctPermutation(t, g, KeyOf);
    StrictlyIncreasing(t, KeyOf);
    PermutedKeys(t, g);
  }

  /**
   * Months come out strictly ascending; a month is listed exactly when some
   * delivered order was placed in it; its value is the number of distinct
   * ids among those orders, so it is at least one.
   */
  lemma MonthlyDeliveredSpec(orders: seq<Order>)
    ensures forall i, j :: 0 <= i < j < |MonthlyDelivered(orders)| ==>
              MonthlyDelivered(orders)[i].key < MonthlyDelivered(orders)[j].key
    ensures forall m :: HasKey(MonthlyDelivered(orders), m) <==>
              exists o :: o in orders && IsDelivered(o) && MonthOf(o.purchaseTimestamp) == m
    ensures forall e :: e in MonthlyDelivered(orders) ==>
              e.value == |DeliveredIdsIn(orders, e.key)| && e.value >= 1
  {
    var d := DeliveredOrders(orders);
    var g := GroupAgg(d, PurchaseMonth, DistinctOrders);
    var t := MonthlyDelivered(orders);
    AscendingKeys(t, g);
    forall m ensures HasKey(t, m) <==> exists o :: o in orders && IsDelivered(o) && MonthOf(o.purchaseTimestamp) == m {
      if exists o :: o in orders && IsDelivered(o) && MonthOf(o.purchaseTimestamp) == m {
        var o :| o in orders && IsDelivered(o) && MonthOf(o.purchaseTimestamp) == m;
        assert o in d && PurchaseMonth(o) == Some(m);
      }
    }
    forall e | e in t ensures e.value == |DeliveredIdsIn(orders, e.key)| && e.value >= 1 {
      MonthGroupIds(orders, e.key);
      assert HasKey(g, e.key);
      var x :| x in d && PurchaseMonth(x) == Some(e.key);
      assert x in Select(d, PurchaseMonth, e.key);
      ValuesSpec(Select(d, PurchaseMonth, e.key), OrderIdOf);
    }
  }

  // ----- product category counts -----

  /** Per category, the number of product lines (`value_counts()`, dashboard/dashboard.py:106). */
  function LinesPerCategory(lines: seq<ProductLine>): seq<Entry<string>>
  {
    GroupAgg(lines, CategoryOf, Count)
  }

  /** Per category, the number of distinct orders (`order_id.nunique()`, dashboard.py:97). */
  function OrdersPerCategory(lines: seq<ProductLine>): seq<Entry<string>>
  {
    GroupAgg(lines, CategoryOf, DistinctLineOrders)
  }

  /**
   * The two ways of counting sales list the same categories; a category
   * sold in n lines of m distinct orders has 1 <= m <= n.
   */
  lemma OrdersAtMostLines(lines: seq<ProductLine>, k: string)
    ensures HasKey(LinesPerCategory(lines), k) <==> HasKey(OrdersPerCategory(lines), k)
    ensures forall a, b :: a in OrdersPerCategory(lines) && b in LinesPerCategory(lines) && a.key == k && b.key == k ==>
              1 <= a.value <= b.value
  {
    var byOrder, byLine := OrdersPerCategory(lines), LinesPerCategory(lines);
    forall a, b | a in byOrder && b in byLine && a.key == k && b.key == k ensures 1 <= a.value <= b.value {
      assert HasKey(byOrder, k);
      var x :| x in lines && CategoryOf(x) == Some(k);
      assert x in Select(lines, CategoryOf, k);
      ValuesSpec(Select(lines, CategoryOf, k), LineOrderOf);
    }
  }

  /**
   * `value_counts()` counts cells: a category is listed exactly when some
   * line has it, with the number of times it occurs in the category column.
   */
  lemma LinesPerCategorySpec(lines: seq<ProductLine>)
    ensures forall k :: HasKey(LinesPerCategory(lines), k) <==> exists x :: x in lines && x.category == Some(k)
    ensures forall e :: e in LinesPerCategory(lines) ==> e.value == multiset(Column(lines, CategoryOf))[Some(e.key)]
  {
    forall e | e in LinesPerCategory(lines) ensures e.value == multiset(Column(lines, CategoryOf))[Some(e.key)] {
      SelectCount(lines, CategoryOf, e.key);
    }
  }

  // ----- hourly order counts (dashboard.py:110, dashboard/dashboard.py:140) -----

  /** `purchase_hour.value_counts().sort_index()`: hours with orders, ascending, with their order counts. */
  function HourlyCounts(orders: seq<Order>): seq<Entry<int>>
  {
    SortBy(GroupAgg(orders, HourOf, Count), KeyOf, true)
  }

  /**
   * Hours come out strictly ascending, an hour is listed exactly when some
   * order was placed in it, its count is the number of such orders, and
   * the counts add up to the number of orders whose hour is present.
   */
  lemma HourlyCountsSpec(orders: seq<Order>)
    ensures forall i, j :: 0 <= i < j < |HourlyCounts(orders)| ==>
              HourlyCounts(orders)[i].key < HourlyCounts(orders)[j].key
    ensures forall h :: HasKey(HourlyCounts(orders), h) <==> exists o :: o in orders && o.purchaseHour == Some(h)
    ensures forall e :: e in HourlyCounts(orders) ==> e.value == multiset(Column(orders, HourOf))[Some(e.key)] >= 1
    ensures Sum(HourlyCounts(orders), ValueOf) == |NonNull(orders, HourOf)|
  {
    var g := GroupAgg(orders, HourOf, Count);
    var t := HourlyCounts(orders);
    AscendingKeys(t, g);
    forall e | e in t ensures e.value == multiset(Column(orders, HourOf))[Some(e.key)] >= 1 {
      SelectCount(orders, HourOf, e.key);
      assert HasKey(g, e.key);
      var x :| x in orders && HourOf(x) == Some(e.key);
      assert x in Select(orders, HourOf, e.key);
    }
    SumPermutation(t, g, ValueOf);
    CountIsSum<Order>();
    SumOfGroups(orders, HourOf, Count, One);
    SumOne(NonNull(orders, HourOf));
  }

  // ----- revenue per category (dashboard.py:120-123, dashboard/dashboard.py:151-154) -----

  /** `groupby(category)['price'].sum()`. */
  function RevenuePerCategory(lines: seq<ProductLine>): seq<Entry<string>>
  {
    GroupAgg(lines, CategoryOf, Revenue)
  }

  /**
   * `total_rev`: the category revenues add up to the total price of every
   * product line whose category is present.
   */
  lemma RevenueConserved(lines: seq<ProductLine>)
    ensures Sum(RevenuePerCategory(lines), ValueOf) == Sum(NonNull(lines, CategoryOf), LinePriceOf)
  {
    SumOfGroups(lines, CategoryOf, Revenue, LinePriceOf);
  }

  /**
   * `sort_values(by='price', ascending=False).head(10)`: min(10, categories)
   * entries, each the revenue of its category, in descending revenue, none
   * smaller than an entry left out.
   */
  lemma TopRevenueSpec(lines: seq<ProductLine>, top: seq<Entry<string>>)
    requires IsSortedHead(top, RevenuePerCategory(lines), ValueOf, false, 10)
    ensures |top| == Min(10, |Keys(lines, CategoryOf)|)
    ensures multiset(top) <= multiset(RevenuePerCategory(lines))
    ensures forall e :: e in top ==> e.value == Sum(Select(lines, CategoryOf, e.key), LinePriceOf)
    ensures SortedBy(top, ValueOf, false)
    ensures forall x, y :: x in top && y in multiset(RevenuePerCategory(lines)) - multiset(top) ==> x.value >= y.value
  {
    var rev := RevenuePerCategory(lines);
    SortedHeadSpec(top, rev, ValueOf, false, 10);
    forall e | e in top ensures e in rev {
      assert e in multiset(rev);
    }
  }
}
