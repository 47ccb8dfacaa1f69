/**
  One recomputation of the dashboard: the filter selection applied to the two
  stores, and every view and metric computed from the filtered tables.
 */
module Dashboard {
  import opened Records
  import opened Seqs
  import opened Grouping
  import opened Filters
  import opened DailyOrders
  import opened Views
  import opened Rfm

  /** The sidebar selection: a period of days and a category (or "All"). */
  datatype Selection = Selection(startDay: int, endDay: int, category: string)

  /** Everything the page shows, before rendering. */
  datatype Page = Page(
    daily: seq<DailyRow>,
    totalOrders: int,
    totalRevenue: int,
    topCategories: seq<Group<string>>,
    topProducts: seq<ProductRow>,
    byState: seq<StateRow>,
    summary: RfmSummary,
    topRecency: seq<RfmRecord>,
    topFrequency: seq<RfmRecord>,
    topMonetary: seq<RfmRecord>
  )

  function Filtered(orders: seq<OrderLine>, sel: Selection): seq<OrderLine>
  {
    FilterOrders(orders, sel.startDay, sel.endDay, sel.category)
  }

  /** Every line of an order table satisfies the order-day invariant when the table does. */
  lemma ConsistentSubset(r: seq<OrderLine>, s: seq<OrderLine>)
    requires forall l :: l in r ==> l in s
    requires OrderDaysConsistent(s)
    ensures OrderDaysConsistent(r)
  {
    forall i, j | 0 <= i < |r| && 0 <= j < |r| && r[i].orderId == r[j].orderId
      ensures Day(r[i].purchasedAt) == Day(r[j].purchasedAt)
    {
      assert r[i] in s && r[j] in s;
      var a :| 0 <= a < |s| && s[a] == r[i];
      var b :| 0 <= b < |s| && s[b] == r[j];
    }
  }

  lemma FilteredOrderTotal(orders: seq<OrderLine>, sel: Selection)
    ensures OrderDaysConsistent(orders) ==>
      SumBy(Daily(Filtered(orders, sel)), OrderCountOf) == |set l | l in Filtered(orders, sel) :: l.orderId|
  {
    if OrderDaysConsistent(orders) {
      ConsistentSubset(Filtered(orders, sel), orders);
      DailyOrderTotal(Filtered(orders, sel));
    }
  }

  /** Customer `c` has a line in `category` somewhere in the order table. */
  ghost predicate BoughtIn(orders: seq<OrderLine>, c: string, category: string)
  {
    exists i :: 0 <= i < |orders| && orders[i].customerId == c && orders[i].category == Some(category)
  }

  lemma RankedAreSelected(ranked: seq<RfmRecord>, selected: seq<RfmRecord>)
    requires multiset(ranked) <= multiset(selected)
    ensures forall x :: x in ranked ==> x in selected
  {
    forall x | x in ranked
      ensures x in selected
    {
      assert x in multiset(ranked);
    }
  }

  /** The page for one selection. The "Total Revenue" metric is the total
      price of the filtered lines; the "Total Orders" metric is their number of
      distinct orders whenever each order's lines share a purchase day. */
  function Build(orders: seq<OrderLine>, rfm: seq<RfmRecord>, sel: Selection): (p: Page)
    ensures p.totalRevenue == SumBy(Filtered(orders, sel), PriceOf)
    ensures OrderDaysConsistent(orders) ==>
      p.totalOrders == |set l | l in Filtered(orders, sel) :: l.orderId|
    // with a category selected, every ranked customer bought in that category
    ensures sel.category != AllCategories ==>
      forall x :: x in p.topRecency + p.topFrequency + p.topMonetary ==> BoughtIn(orders, x.customerId, sel.category)
  {
    var lines := Filtered(orders, sel);
    var daily := Daily(lines);
    var selected := RfmSubset(rfm, orders, sel.category);
    DailyRevenueTotal(lines);
    FilteredOrderTotal(orders, sel);
    var topRecency, topFrequency, topMonetary := TopByRecency(selected), TopByFrequency(selected), TopByMonetary(selected);
    RankedAreSelected(topRecency, selected);
    RankedAreSelected(topFrequency, selected);
    RankedAreSelected(topMonetary, selected);
    Page(
      daily,
      SumBy(daily, OrderCountOf),
      SumBy(daily, RevenueOf),
      TopProductCategory(lines),
      TopProducts(lines),
      CustomersByState(lines),
      Summarize(selected),
      topRecency,
      topFrequency,
      topMonetary
    )
  }

  /** The RFM part of the page depends on the category only: the period does
      not narrow the customers. */
  lemma RfmIgnoresPeriod(orders: seq<OrderLine>, rfm: seq<RfmRecord>, s1: Selection, s2: Selection)
    requires s1.category == s2.category
    ensures Build(orders, rfm, s1).summary == Build(orders, rfm, s2).summary
    ensures Build(orders, rfm, s1).topRecency == Build(orders, rfm, s2).topRecency
    ensures Build(orders, rfm, s1).topFrequency == Build(orders, rfm, s2).topFrequency
    ensures Build(orders, rfm, s1).topMonetary == Build(orders, rfm, s2).topMonetary
  {
  }

  /** On the example table, the period from day 19723 to day 19724 keeps the
      three lines of the first day and drops the line bought one minute after
      midnight of the end day. */
  lemma ExamplePeriodDropsEndDay()
    ensures forall i :: 0 <= i < 3 ==> ExampleLines()[i] in Filtered(ExampleLines(), Selection(19723, 19724, AllCategories))
    ensures ExampleLines()[3] !in Filtered(ExampleLines(), Selection(19723, 19724, AllCategories))
  {
  }
}
