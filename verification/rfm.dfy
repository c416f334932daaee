/**
 * The RFM (recency, frequency, monetary) aggregation of the app dashboard:
 * the date-filtered order-line rows are grouped by customer; each customer
 * gets the number of distinct orders, the total price of their line items
 * and the whole days from a reference instant (one day past the window's
 * latest purchase) back to their own latest purchase. The top five
 * customers by each metric are then charted.
 */
module Rfm {
  import opened Wrappers
  import opened Frames
  import opened Ranking
  import opened GroupBy
  import opened Calendar
  import opened DateFilter

  /** A row of the order-line extract: one product line of one order. Prices are in cents. */
  datatype LineItem = LineItem(customerUniqueId: string, orderId: string, purchaseTimestamp: int, price: int)

  function CustomerOf(x: LineItem): Option<string> { Some(x.customerUniqueId) }

  function OrderOf(x: LineItem): string { x.orderId }

  function PurchasedAt(x: LineItem): int { x.purchaseTimestamp }

  function PriceOf(x: LineItem): int { x.price }

  /** One row of the RFM table, after the rename and the column edits. */
  datatype RfmRow = RfmRow(customerId: string, frequency: int, monetary: int, recency: int)

  function CustomerIdOf(r: RfmRow): string { r.customerId }

  function RecencyOf(r: RfmRow): int { r.recency }

  function FrequencyOf(r: RfmRow): int { r.frequency }

  function MonetaryOf(r: RfmRow): int { r.monetary }

  /** The customer appears in some row. */
  ghost predicate Buys(rows: seq<LineItem>, c: string)
  {
    exists x :: x in rows && x.customerUniqueId == c
  }

  /** The table has a row for the customer. */
  ghost predicate Lists(t: seq<RfmRow>, c: string)
  {
    exists r :: r in t && r.customerId == c
  }

  // ----- the per-customer aggregates (lines 173-184) -----

  /** The groups of the group-by: distinct customers, in order of first appearance. */
  function Customers(rows: seq<LineItem>): seq<string>
  {
    Keys(rows, CustomerOf)
  }

  /** The line items of one customer. */
  function Purchases(rows: seq<LineItem>, c: string): seq<LineItem>
  {
    Select(rows, CustomerOf, c)
  }

  /** `"order_id": "nunique"` */
  function Frequency(rows: seq<LineItem>, c: string): int
  {
    |Values(Purchases(rows, c), OrderOf)|
  }

  /** `"price": "sum"` */
  function Monetary(rows: seq<LineItem>, c: string): int
  {
    Sum(Purchases(rows, c), PriceOf)
  }

  /** `"order_purchase_timestamp": "max"` */
  function LatestPurchase(rows: seq<LineItem>, c: string): int
    requires c in Customers(rows)
  {
    MaxOf(Purchases(rows, c), PurchasedAt)
  }

  /** `rfm_date`: one day past the latest purchase in the window. */
  function ReferenceInstant(rows: seq<LineItem>): int
    requires rows != []
  {
    MaxOf(rows, PurchasedAt) + SecondsPerDay
  }

  /** `(rfm_date - max_order_timestamp).dt.days` */
  function Recency(rows: seq<LineItem>, c: string): int
    requires c in Customers(rows)
  {
    WholeDays(ReferenceInstant(rows) - LatestPurchase(rows, c))
  }

  function RfmOf(rows: seq<LineItem>, c: string): RfmRow
    requires c in Customers(rows)
  {
    RfmRow(c, Frequency(rows, c), Monetary(rows, c), Recency(rows, c))
  }

  /** The rows of the RFM table for the customers `cs`, in that order. */
  function RfmRows(rows: seq<LineItem>, cs: seq<string>): (t: seq<RfmRow>)
    requires forall c :: c in cs ==> c in Customers(rows)
    ensures |t| == |cs|
    ensures forall i :: 0 <= i < |cs| ==> CustomerIdOf(t[i]) == cs[i]
  {
    if cs == [] then [] else [RfmOf(rows, cs[0])] + RfmRows(rows, cs[1..])
  }

  /** Row i of the table is the RFM row of the i-th customer. */
  lemma {:induction false} RfmRowsAt(rows: seq<LineItem>, cs: seq<string>, i: int)
    requires forall c :: c in cs ==> c in Customers(rows)
    requires 0 <= i < |cs|
    ensures RfmRows(rows, cs)[i] == RfmOf(rows, cs[i])
  {
    if i > 0 {
      RfmRowsAt(rows, cs[1..], i - 1);
    }
  }

  /**
   * `main_rfm_df`: one row per customer of the window. (pandas lists the
   * groups in key order; every use of the table re-sorts it, so the model
   * keeps the order of first appearance.) An empty window gives an empty
   * table.
   */
  function RfmTable(rows: seq<LineItem>): seq<RfmRow>
  {
    RfmRows(rows, Customers(rows))
  }

  // ----- the frame and its in-place edits (lines 175-185) -----

  /**
   * The RFM data frame, column by column, with the two optional columns
   * flagged as present or dropped.
   */
  class RfmFrame {
    var customerId: seq<string>
    var maxOrderTimestamp: seq<int>
    var frequency: seq<int>
    var monetary: seq<int>
    var recency: seq<int>
    var hasMaxOrderTimestamp: bool
    var hasRecency: bool

    ghost predicate Valid()
      reads this
    {
      && |frequency| == |customerId|
      && |monetary| == |customerId|
      && |maxOrderTimestamp| == (if hasMaxOrderTimestamp then |customerId| else 0)
      && |recency| == (if hasRecency then |customerId| else 0)
    }

    /** The group-by with its three aggregations, and the rename of its columns. */
    constructor GroupByCustomer(rows: seq<LineItem>)
      ensures Valid() && hasMaxOrderTimestamp && !hasRecency
      ensures customerId == Customers(rows)
      ensures forall i :: 0 <= i < |customerId| ==>
                && maxOrderTimestamp[i] == LatestPurchase(rows, customerId[i])
                && frequency[i] == Frequency(rows, customerId[i])
                && monetary[i] == Monetary(rows, customerId[i])
    {
      var cs := Customers(rows);
      customerId := cs;
      maxOrderTimestamp := seq(|cs|, i requires 0 <= i < |cs| => LatestPurchase(rows, cs[i]));
      frequency := seq(|cs|, i requires 0 <= i < |cs| => Frequency(rows, cs[i]));
      monetary := seq(|cs|, i requires 0 <= i < |cs| => Monetary(rows, cs[i]));
      recency := [];
      hasMaxOrderTimestamp := true;
      hasRecency := false;
    }

    /** Adds the `recency` column: whole days from `rfmDate` back to each latest purchase. */
    method AddRecency(rfmDate: int)
      requires Valid() && hasMaxOrderTimestamp
      modifies this
      ensures Valid() && hasRecency && hasMaxOrderTimestamp
      ensures customerId == old(customerId) && maxOrderTimestamp == old(maxOrderTimestamp)
      ensures frequency == old(frequency) && monetary == old(monetary)
      ensures forall i :: 0 <= i < |recency| ==> recency[i] == WholeDays(rfmDate - maxOrderTimestamp[i])
    {
      var latest := maxOrderTimestamp;
      recency := seq(|latest|, i requires 0 <= i < |latest| => WholeDays(rfmDate - latest[i]));
      hasRecency := true;
    }

    /** Drops the `max_order_timestamp` column in place. */
    method DropMaxOrderTimestamp()
      requires Valid()
      modifies this
      ensures Valid() && !hasMaxOrderTimestamp && hasRecency == old(hasRecency)
      ensures customerId == old(customerId) && frequency == old(frequency)
      ensures monetary == old(monetary) && recency == old(recency)
    {
      maxOrderTimestamp := [];
      hasMaxOrderTimestamp := false;
    }

    /** The frame read row by row, once it has its final columns. */
    function Rows(): (t: seq<RfmRow>)
      reads this
      requires Valid() && hasRecency
      ensures |t| == |customerId|
      ensures forall i :: 0 <= i < |t| ==>
                t[i] == RfmRow(customerId[i], frequency[i], monetary[i], recency[i])
    {
      var ids, fs, ms, rs := customerId, frequency, monetary, recency;
      seq(|ids|, i requires 0 <= i < |ids| => RfmRow(ids[i], fs[i], ms[i], rs[i]))
    }
  }

  /**
   * Lines 173-185 in order: the reference instant, the grouped frame, the
   * added `recency` column and the dropped timestamp column. The frame
   * ends up holding exactly the RFM table.
   */
  method PrepareRfm(rows: seq<LineItem>) returns (table: seq<RfmRow>)
    ensures table == RfmTable(rows)
  {
    // An empty window has no customers, so pandas' NaT reference instant is never read.
    var rfmDate := if rows == [] then 0 else ReferenceInstant(rows);
    var frame := new RfmFrame.GroupByCustomer(rows);
    RecencyColumn(rows, rfmDate, frame.maxOrderTimestamp);
    frame.AddRecency(rfmDate);
    frame.DropMaxOrderTimestamp();
    table := frame.Rows();
    FrameIsTable(rows, table, frame.customerId, frame.frequency, frame.monetary, frame.recency);
  }

  /** The recency column computed from the latest purchases is the model's recency. */
  lemma RecencyColumn(rows: seq<LineItem>, rfmDate: int, latest: seq<int>)
    requires rows != [] ==> rfmDate == ReferenceInstant(rows)
    requires |latest| == |Customers(rows)|
    requires forall i :: 0 <= i < |latest| ==> latest[i] == LatestPurchase(rows, Customers(rows)[i])
    ensures forall i :: 0 <= i < |latest| ==> WholeDays(rfmDate - latest[i]) == Recency(rows, Customers(rows)[i])
  {
  }

  /** Columns holding each customer's aggregates, read row by row, are the RFM table. */
  lemma FrameIsTable(rows: seq<LineItem>, t: seq<RfmRow>, ids: seq<string>, fs: seq<int>, ms: seq<int>, rs: seq<int>)
    requires ids == Customers(rows) && |t| == |ids| == |fs| == |ms| == |rs|
    requires forall i :: 0 <= i < |ids| ==>
               fs[i] == Frequency(rows, ids[i]) && ms[i] == Monetary(rows, ids[i]) && rs[i] == Recency(rows, ids[i])
    requires forall i :: 0 <= i < |t| ==> t[i] == RfmRow(ids[i], fs[i], ms[i], rs[i])
    ensures t == RfmTable(rows)
  {
    forall i | 0 <= i < |t| ensures t[i] == RfmTable(rows)[i] {
      RfmRowsAt(rows, ids, i);
    }
  }

  // ----- what the table promises -----

  /** A customer has a group exactly when some row of the window is theirs. */
  lemma CustomersExact(rows: seq<LineItem>, c: string)
    ensures c in Customers(rows) <==> Buys(rows, c)
  {
    if Buys(rows, c) {
      var x :| x in rows && x.customerUniqueId == c;
      assert CustomerOf(x) == Some(c);
    }
  }

  /** Row i of the table is the row of customer i of the group-by. */
  lemma TableIds(rows: seq<LineItem>)
    ensures |RfmTable(rows)| == |Customers(rows)|
    ensures forall i :: 0 <= i < |Customers(rows)| ==> CustomerIdOf(RfmTable(rows)[i]) == Customers(rows)[i]
  {
  }

  /** A table whose id column is `cs` lists exactly the customers of `cs`. */
  lemma ListsIds(t: seq<RfmRow>, cs: seq<string>, c: string)
    requires |t| == |cs| && forall i :: 0 <= i < |t| ==> CustomerIdOf(t[i]) == cs[i]
    ensures Lists(t, c) <==> c in cs
  {
    if c in cs {
      var i :| 0 <= i < |cs| && cs[i] == c;
      assert t[i] in t && CustomerIdOf(t[i]) == c;
    }
    if Lists(t, c) {
      var r :| r in t && r.customerId == c;
      var i :| 0 <= i < |t| && t[i] == r;
      assert cs[i] == c;
    }
  }

  /** Exactly one row per customer of the window: none dropped, none invented, none twice. */
  lemma RfmCustomersExact(rows: seq<LineItem>)
    ensures |RfmTable(rows)| == |Customers(rows)|
    ensures DistinctBy(RfmTable(rows), CustomerIdOf)
    ensures forall c :: Lists(RfmTable(rows), c) <==> Buys(rows, c)
  {
    var t, cs := RfmTable(rows), Customers(rows);
    TableIds(rows);
    forall i, j | 0 <= i < j < |t| ensures CustomerIdOf(t[i]) != CustomerIdOf(t[j]) {
      assert cs[i] != cs[j];
    }
    forall c ensures Lists(t, c) <==> Buys(rows, c) {
      ListsIds(t, cs, c);
      CustomersExact(rows, c);
    }
  }

  /** Frequency counts distinct orders: at least one, at most the customer's line items. */
  lemma FrequencyBounds(rows: seq<LineItem>, c: string)
    requires c in Customers(rows)
    ensures 1 <= Frequency(rows, c) <= |Purchases(rows, c)|
  {
    ValuesSpec(Purchases(rows, c), OrderOf);
  }

  /** Frequency is the number of distinct order ids among the customer's rows, not their row count. */
  lemma FrequencyCountsOrders(rows: seq<LineItem>, c: string)
    ensures Frequency(rows, c) == |set x | x in rows && x.customerUniqueId == c :: x.orderId|
  {
    ValuesSpec(Purchases(rows, c), OrderOf);
    assert Values(Purchases(rows, c), OrderOf) == set x | x in rows && x.customerUniqueId == c :: x.orderId;
  }

  /** Three line items of one customer over two orders: frequency two, with all three prices in monetary. */
  lemma TwoOrdersThreeLines()
    ensures var rows := [LineItem("C1", "O1", Midnight(17532), 1000), LineItem("C1", "O1", Midnight(17532), 2000),
                         LineItem("C1", "O2", Midnight(17533), 4000)];
            Frequency(rows, "C1") == 2 && Monetary(rows, "C1") == 7000
  {
    var rows := [LineItem("C1", "O1", Midnight(17532), 1000), LineItem("C1", "O1", Midnight(17532), 2000),
                 LineItem("C1", "O2", Midnight(17533), 4000)];
    assert forall x :: x in rows ==> CustomerOf(x) == Some("C1");
    FilterAll(rows, IsKey(CustomerOf, "C1"));
    assert Purchases(rows, "C1") == rows;
    assert "O1"[1] != "O2"[1];
    assert Values(rows, OrderOf) == {"O1", "O2"};
  }

  /**
   * Monetary sums line items, not orders: the monetary column adds up to
   * the total price of every row of the window.
   */
  lemma MonetaryConserved(rows: seq<LineItem>)
    ensures Sum(RfmTable(rows), MonetaryOf) == Sum(rows, PriceOf)
  {
    var cs := Customers(rows);
    RfmRowsMonetary(rows, cs);
    GroupTotalCovers(cs, rows, CustomerOf, PriceOf);
    NonNullAll(rows, CustomerOf);
  }

  lemma {:induction false} RfmRowsMonetary(rows: seq<LineItem>, cs: seq<string>)
    requires forall c :: c in cs ==> c in Customers(rows)
    ensures Sum(RfmRows(rows, cs), MonetaryOf) == GroupTotal(cs, rows, CustomerOf, PriceOf)
  {
    if cs != [] {
      RfmRowsMonetary(rows, cs[1..]);
    }
  }

  /**
   * The reference instant is one day past the window's latest purchase, so
   * recency is at least one day; it is exactly one for the customers whose
   * latest purchase is within a day of the window's, and in particular for
   * whoever made the latest purchase.
   */
  lemma RecencySpec(rows: seq<LineItem>, c: string)
    requires c in Customers(rows)
    ensures Recency(rows, c) >= 1
    ensures Recency(rows, c) == 1 <==> MaxOf(rows, PurchasedAt) - LatestPurchase(rows, c) < SecondsPerDay
    ensures LatestPurchase(rows, c) == MaxOf(rows, PurchasedAt) ==> Recency(rows, c) == 1
  {
    var latest := LatestPurchase(rows, c);
    LatestWithinWindow(rows, c);
    DaysSinceLatest(MaxOf(rows, PurchasedAt), latest);
  }

  /** A customer's latest purchase is no later than the window's. */
  lemma LatestWithinWindow(rows: seq<LineItem>, c: string)
    requires c in Customers(rows)
    ensures LatestPurchase(rows, c) <= MaxOf(rows, PurchasedAt)
  {
    MaxOfSpec(Purchases(rows, c), PurchasedAt);
    MaxOfSpec(rows, PurchasedAt);
    var x :| x in Purchases(rows, c) && PurchasedAt(x) == LatestPurchase(rows, c);
    assert x in rows;
  }

  /** Whole days from `latest` to one day past `newest`. */
  lemma DaysSinceLatest(newest: int, latest: int)
    requires latest <= newest
    ensures WholeDays(newest + SecondsPerDay - latest) >= 1
    ensures WholeDays(newest + SecondsPerDay - latest) == 1 <==> newest - latest < SecondsPerDay
  {
  }

  /** Some customer owns the window's latest purchase. */
  lemma LatestOwner(rows: seq<LineItem>) returns (c: string)
    requires rows != []
    ensures c in Customers(rows) && LatestPurchase(rows, c) == MaxOf(rows, PurchasedAt)
  {
    var m := MaxOf(rows, PurchasedAt);
    MaxOfSpec(rows, PurchasedAt);
    var x :| x in rows && PurchasedAt(x) == m;
    c := x.customerUniqueId;
    assert CustomerOf(x) == Some(c);
    assert x in Purchases(rows, c);
    var latest := LatestPurchase(rows, c);
    MaxOfSpec(Purchases(rows, c), PurchasedAt);
    var y :| y in Purchases(rows, c) && PurchasedAt(y) == latest;
    assert y in rows;
  }

  /** Two tables with the same rows have the same customers. */
  lemma CustomersSameRows(a: seq<LineItem>, b: seq<LineItem>, c: string)
    requires forall x :: x in a <==> x in b
    ensures c in Customers(a) <==> c in Customers(b)
  {
    CustomersExact(a, c);
    CustomersExact(b, c);
  }

  /** Re-ordering the rows re-orders each customer's line items. */
  lemma PurchasesPermutation(a: seq<LineItem>, b: seq<LineItem>, c: string)
    requires multiset(a) == multiset(b)
    ensures multiset(Purchases(a, c)) == multiset(Purchases(b, c))
  {
    SelectMultiset(a, CustomerOf, c);
    SelectMultiset(b, CustomerOf, c);
  }

  /** A customer's RFM row does not depend on the order of the input rows. */
  lemma RfmPermutationInvariant(a: seq<LineItem>, b: seq<LineItem>, c: string)
    requires multiset(a) == multiset(b)
    requires c in Customers(a)
    ensures c in Customers(b)
    ensures RfmOf(a, c) == RfmOf(b, c)
  {
    SameRows(a, b);
    CustomersSameRows(a, b, c);
    AggregatesPermutation(a, b, c);
    RecencyPermutation(a, b, c);
  }

  /** Nor does recency: both the reference instant and the customer's latest purchase are maxima. */
  lemma RecencyPermutation(a: seq<LineItem>, b: seq<LineItem>, c: string)
    requires multiset(a) == multiset(b)
    requires c in Customers(a) && c in Customers(b)
    ensures Recency(a, c) == Recency(b, c)
  {
    SameRows(a, b);
    AggregatesPermutation(a, b, c);
    MaxOfSameRows(a, b, PurchasedAt);
  }

  /** The three per-customer aggregates do not depend on the order of the rows. */
  lemma AggregatesPermutation(a: seq<LineItem>, b: seq<LineItem>, c: string)
    requires multiset(a) == multiset(b)
    requires c in Customers(a) && c in Customers(b)
    ensures Frequency(a, c) == Frequency(b, c)
    ensures Monetary(a, c) == Monetary(b, c)
    ensures LatestPurchase(a, c) == LatestPurchase(b, c)
  {
    var pa, pb := Purchases(a, c), Purchases(b, c);
    PurchasesPermutation(a, b, c);
    SameRows(pa, pb);
    SumPermutation(pa, pb, PriceOf);
    ValuesSameRows(pa, pb, OrderOf);
    MaxOfSameRows(pa, pb, PurchasedAt);
  }

  /** Tables that are permutations of each other hold the same rows. */
  lemma SameRows<T>(a: seq<T>, b: seq<T>)
    requires multiset(a) == multiset(b)
    ensures forall x :: x in a <==> x in b
  {
    assert forall x :: x in a <==> x in multiset(b);
  }

  /** Narrowing the date window never raises a customer's frequency. */
  lemma NarrowingKeepsFrequency(rows: seq<LineItem>, s1: int, e1: int, s2: int, e2: int, c: string)
    requires s1 <= s2 && e2 <= e1
    ensures Frequency(FilterByDate(rows, PurchasedAt, s2, e2), c) <= Frequency(FilterByDate(rows, PurchasedAt, s1, e1), c)
  {
    var wide := FilterByDate(rows, PurchasedAt, s1, e1);
    var inner := Window(PurchasedAt, s2, e2);
    NarrowedWindow(rows, PurchasedAt, s1, e1, s2, e2);
    SelectOfFilter(wide, inner, CustomerOf, c);
    ValuesOfFilter(Purchases(wide, c), inner, OrderOf);
  }

  /** With non-negative prices, narrowing the date window never raises a customer's monetary value. */
  lemma NarrowingKeepsMonetary(rows: seq<LineItem>, s1: int, e1: int, s2: int, e2: int, c: string)
    requires s1 <= s2 && e2 <= e1
    requires forall x :: x in rows ==> x.price >= 0
    ensures Monetary(FilterByDate(rows, PurchasedAt, s2, e2), c) <= Monetary(FilterByDate(rows, PurchasedAt, s1, e1), c)
  {
    var wide := FilterByDate(rows, PurchasedAt, s1, e1);
    var inner := Window(PurchasedAt, s2, e2);
    NarrowedWindow(rows, PurchasedAt, s1, e1, s2, e2);
    SelectOfFilter(wide, inner, CustomerOf, c);
    SumFilterAtMost(Purchases(wide, c), inner, PriceOf);
  }

  // ----- the ranking panels (lines 203-225) -----

  /** `customer_id.str[-8:]`: the last eight characters, or the whole id when it is shorter. */
  function ShortId(id: string): (s: string)
    ensures |s| == Min(8, |id|)
    ensures id == id[..|id| - |s|] + s
  {
    Tail(id, 8)
  }

  /** Shortening leaves a short id as it is, so shortening twice is shortening once. */
  lemma ShortIdIdempotent(id: string)
    ensures |id| <= 8 ==> ShortId(id) == id
    ensures ShortId(ShortId(id)) == ShortId(id)
  {
  }

  /** A row of `rfm_plot_df`: an RFM row and its short id. */
  datatype PlotRow = PlotRow(rfm: RfmRow, customerIdShort: string)

  function PlotRecency(p: PlotRow): int { p.rfm.recency }

  function PlotFrequency(p: PlotRow): int { p.rfm.frequency }

  function PlotMonetary(p: PlotRow): int { p.rfm.monetary }

  /** `rfm_plot_df`: a copy of the table with the `customer_id_short` column added. */
  function WithShortIds(t: seq<RfmRow>): (p: seq<PlotRow>)
    ensures |p| == |t|
    ensures forall i :: 0 <= i < |t| ==>
              && p[i].rfm == t[i]
              && |p[i].customerIdShort| == Min(8, |t[i].customerId|)
              && t[i].customerId == t[i].customerId[..|t[i].customerId| - |p[i].customerIdShort|] + p[i].customerIdShort
  {
    seq(|t|, i requires 0 <= i < |t| => PlotRow(t[i], ShortId(t[i].customerId)))
  }

  /** Every customer of the window has recency at least one day. */
  lemma RecencyAtLeastOne(rows: seq<LineItem>)
    ensures forall i :: 0 <= i < |RfmTable(rows)| ==> RfmTable(rows)[i].recency >= 1
  {
    var t, cs := RfmTable(rows), Customers(rows);
    forall i | 0 <= i < |t| ensures t[i].recency >= 1 {
      RfmRowsAt(rows, cs, i);
      RecencySpec(rows, cs[i]);
    }
  }

  /** A non-empty window has a customer of recency one: the owner of its latest purchase. */
  lemma RecencyOneListed(rows: seq<LineItem>) returns (i: nat)
    requires rows != []
    ensures i < |RfmTable(rows)| && RfmTable(rows)[i].recency == 1
  {
    var c := LatestOwner(rows);
    var cs := Customers(rows);
    i :| i < |cs| && cs[i] == c;
    RfmRowsAt(rows, cs, i);
    RecencySpec(rows, c);
  }

  /**
   * `sort_values(by="recency").head(5)` over a non-empty window: it shows
   * min(5, customers) rows, and its first row has recency one.
   */
  lemma TopRecencyStartsAtOne(rows: seq<LineItem>, top: seq<PlotRow>)
    requires rows != []
    requires IsSortedHead(top, WithShortIds(RfmTable(rows)), PlotRecency, true, 5)
    ensures |top| == Min(5, |Customers(rows)|) && |top| >= 1
    ensures top[0].rfm.recency == 1
  {
    var i := RecencyOneListed(rows);
    RecencyAtLeastOne(rows);
    RecencyPanelFirst(RfmTable(rows), top, i);
  }

  /** Over a table whose recencies are at least one, with a one at row i, the recency panel starts at one. */
  lemma RecencyPanelFirst(t: seq<RfmRow>, top: seq<PlotRow>, i: int)
    requires 0 <= i < |t| && t[i].recency == 1
    requires forall j :: 0 <= j < |t| ==> t[j].recency >= 1
    requires IsSortedHead(top, WithShortIds(t), PlotRecency, true, 5)
    ensures |top| == Min(5, |t|) && |top| >= 1
    ensures top[0].rfm.recency == 1
  {
    var p := WithShortIds(t);
    SortedHeadSpec(top, p, PlotRecency, true, 5);
    SortedHeadFirst(top, p, PlotRecency, true, 5, i);
  }

  /**
   * A three-row window: C1 buys order O1 on 2018-01-01 (100.00) and O2 on
   * 2018-01-10 (50.00), C2 buys O3 on 2018-01-05 (200.00).
   */
  function ExampleWindow(): seq<LineItem>
  {
    [LineItem("C1", "O1", Midnight(17532), 10000),
     LineItem("C1", "O2", Midnight(17541), 5000),
     LineItem("C2", "O3", Midnight(17536), 20000)]
  }

  lemma ExampleIdsDiffer()
    ensures "C1" != "C2"
  {
    assert "C1"[1] != "C2"[1];
  }

  lemma ExampleCustomers()
    ensures Customers(ExampleWindow()) == ["C1", "C2"]
  {
    var rows := ExampleWindow();
    ExampleIdsDiffer();
    assert rows[..2][..1] == rows[..1] && rows[..1][..0] == [];
    assert Keys(rows[..1], CustomerOf) == ["C1"];
    assert Keys(rows[..2], CustomerOf) == ["C1"];
  }

  lemma ExamplePurchases()
    ensures Purchases(ExampleWindow(), "C1") == ExampleWindow()[..2]
    ensures Purchases(ExampleWindow(), "C2") == ExampleWindow()[2..]
  {
    var rows := ExampleWindow();
    ExampleIdsDiffer();
    var one, two := IsKey(CustomerOf, "C1"), IsKey(CustomerOf, "C2");
    assert CustomerOf(rows[0]) == Some("C1") && CustomerOf(rows[1]) == Some("C1") && CustomerOf(rows[2]) == Some("C2");
    assert one(rows[0]) && one(rows[1]) && !one(rows[2]);
    assert !two(rows[0]) && !two(rows[1]) && two(rows[2]);
    assert rows[1..][1..] == rows[2..] && rows[2..][1..] == [] && rows[2..] == [rows[2]];
    assert rows[1..][0] == rows[1] && rows[2..][0] == rows[2];
    assert Filter(rows[2..], one) == [] && Filter(rows[2..], two) == rows[2..];
    assert Filter(rows[1..], one) == [rows[1]] && Filter(rows[1..], two) == rows[2..];
    assert Filter(rows, one) == [rows[0], rows[1]];
  }

  lemma ExampleReference()
    ensures ReferenceInstant(ExampleWindow()) == Midnight(17542)
  {
    var rows := ExampleWindow();
    var m := MaxOf(rows, PurchasedAt);
    assert PurchasedAt(rows[1]) == Midnight(17541);
    assert forall x :: x in rows ==> PurchasedAt(x) <= Midnight(17541);
  }

  /** Two line items of different orders make a frequency of two. */
  lemma FrequencyOfTwo(rows: seq<LineItem>, c: string, x: LineItem, y: LineItem)
    requires Purchases(rows, c) == [x, y] && x.orderId != y.orderId
    ensures Frequency(rows, c) == 2
  {
    var p := [x, y];
    assert p[1..] == [y] && p[1..][1..] == [];
    assert Values(p[1..], OrderOf) == {y.orderId};
  }

  lemma ExampleFirstFrequency()
    ensures Frequency(ExampleWindow(), "C1") == 2
  {
    var rows := ExampleWindow();
    ExamplePurchases();
    assert rows[..2] == [rows[0], rows[1]];
    assert "O1" != "O2" by {
      assert "O1"[1] != "O2"[1];
    }
    FrequencyOfTwo(rows, "C1", rows[0], rows[1]);
  }

  lemma ExampleFirstSpend()
    ensures Monetary(ExampleWindow(), "C1") == 15000
    ensures "C1" in Customers(ExampleWindow()) && LatestPurchase(ExampleWindow(), "C1") == Midnight(17541)
  {
    var rows := ExampleWindow();
    ExampleCustomers();
    ExamplePurchases();
    var p := rows[..2];
    assert p == [rows[0], rows[1]] && p[1..] == [rows[1]];
    assert MaxOf(p, PurchasedAt) == Midnight(17541);
  }

  lemma ExampleFirstCustomer()
    ensures RfmOf(ExampleWindow(), "C1") == RfmRow("C1", 2, 15000, 1)
  {
    ExampleReference();
    ExampleFirstFrequency();
    ExampleFirstSpend();
  }

  lemma ExampleSecondFrequency()
    ensures Frequency(ExampleWindow(), "C2") == 1
  {
    var rows := ExampleWindow();
    ExamplePurchases();
    var p := rows[2..];
    assert p == [rows[2]];
    assert Values(p, OrderOf) == {"O3"};
  }

  lemma ExampleSecondSpend()
    ensures Monetary(ExampleWindow(), "C2") == 20000
    ensures "C2" in Customers(ExampleWindow()) && LatestPurchase(ExampleWindow(), "C2") == Midnight(17536)
  {
    var rows := ExampleWindow();
    ExampleCustomers();
    ExamplePurchases();
    assert rows[2..] == [rows[2]];
  }

  lemma ExampleSecondCustomer()
    ensures RfmOf(ExampleWindow(), "C2") == RfmRow("C2", 1, 20000, 6)
  {
    ExampleReference();
    ExampleSecondFrequency();
    ExampleSecondSpend();
  }

  /** A window of two customers gives a table of their two rows, in group order. */
  lemma TableOfTwo(rows: seq<LineItem>, c1: string, c2: string)
    requires Customers(rows) == [c1, c2]
    ensures RfmTable(rows) == [RfmOf(rows, c1), RfmOf(rows, c2)]
  {
    RfmRowsAt(rows, [c1, c2], 0);
    RfmRowsAt(rows, [c1, c2], 1);
  }

  /**
   * For that window the reference instant is 2018-01-11 00:00, and the
   * table is C1 (frequency 2, monetary 150.00, recency 1) and C2
   * (frequency 1, monetary 200.00, recency 6).
   */
  lemma WorkedExample()
    ensures ReferenceInstant(ExampleWindow()) == Midnight(17542)
    ensures RfmTable(ExampleWindow()) == [RfmRow("C1", 2, 15000, 1), RfmRow("C2", 1, 20000, 6)]
  {
    ExampleReference();
    ExampleCustomers();
    TableOfTwo(ExampleWindow(), "C1", "C2");
    ExampleFirstCustomer();
    ExampleSecondCustomer();
  }
}
