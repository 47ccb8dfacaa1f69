/**
  The daily orders view: the filtered order table resampled at day
  granularity over the span from its first to its last purchase day. Every
  day of that span has a row, including days with no lines, which get a zero
  order count and zero revenue.
 */
module DailyOrders {
  import opened Records
  import opened Seqs

  /** One row of the view: the day (its label is DayStart(day)), the number of
      distinct orders placed that day, and the summed line prices of that day. */
  datatype DailyRow = DailyRow(day: int, orderCount: nat, revenue: int)

  function RevenueOf(row: DailyRow): int { row.revenue }
  function OrderCountOf(row: DailyRow): int { row.orderCount }

  /** The distinct orders with a line purchased on a day in [a, b). */
  function OrdersBetween(lines: seq<OrderLine>, a: int, b: int): set<string>
  {
    set l | l in lines && a <= Day(l.purchasedAt) < b :: l.orderId
  }

  /** The summed price of the lines purchased on a day in [a, b). */
  function RevenueBetween(lines: seq<OrderLine>, a: int, b: int): int
  {
    if lines == [] then 0
    else
      var d := Day(lines[0].purchasedAt);
      (if a <= d < b then lines[0].price else 0) + RevenueBetween(lines[1..], a, b)
  }

  /** The earliest purchase day of a non-empty table. */
  function FirstDay(lines: seq<OrderLine>): (d: int)
    requires lines != []
    ensures forall i :: 0 <= i < |lines| ==> d <= Day(lines[i].purchasedAt)
    ensures exists i :: 0 <= i < |lines| && Day(lines[i].purchasedAt) == d
  {
    var d0 := Day(lines[0].purchasedAt);
    if |lines| == 1 then d0
    else
      var rest := FirstDay(lines[1..]);
      assert forall i :: 1 <= i < |lines| ==> lines[i] == lines[1..][i - 1];
      if d0 <= rest then d0 else rest
  }

  /** The latest purchase day of a non-empty table. */
  function LastDay(lines: seq<OrderLine>): (d: int)
    requires lines != []
    ensures forall i :: 0 <= i < |lines| ==> Day(lines[i].purchasedAt) <= d
    ensures exists i :: 0 <= i < |lines| && Day(lines[i].purchasedAt) == d
  {
    var d0 := Day(lines[0].purchasedAt);
    if |lines| == 1 then d0
    else
      var rest := LastDay(lines[1..]);
      assert forall i :: 1 <= i < |lines| ==> lines[i] == lines[1..][i - 1];
      if d0 >= rest then d0 else rest
  }

  /** The rows for the days `lo` through `hi`, one per day. */
  function DayRows(lines: seq<OrderLine>, lo: int, hi: int): (rows: seq<DailyRow>)
    ensures |rows| == if lo <= hi then hi - lo + 1 else 0
    ensures forall i :: 0 <= i < |rows| ==> rows[i].day == lo + i
    ensures forall i :: 0 <= i < |rows| ==>
      rows[i].orderCount == |OrdersBetween(lines, rows[i].day, rows[i].day + 1)| &&
      rows[i].revenue == RevenueBetween(lines, rows[i].day, rows[i].day + 1)
    decreases hi + 1 - lo
  {
    if lo > hi then []
    else
      [DailyRow(lo, |OrdersBetween(lines, lo, lo + 1)|, RevenueBetween(lines, lo, lo + 1))]
      + DayRows(lines, lo + 1, hi)
  }

  /** `resample(rule='D')` with a distinct order count and a price sum per day. */
  function Daily(lines: seq<OrderLine>): (rows: seq<DailyRow>)
    ensures lines == [] <==> rows == []
    ensures lines != [] ==>
      && rows[0].day == FirstDay(lines)
      && rows[|rows| - 1].day == LastDay(lines)
      && |rows| == LastDay(lines) - FirstDay(lines) + 1
    // consecutive, strictly ascending days
    ensures forall i :: 0 < i < |rows| ==> rows[i].day == rows[i - 1].day + 1
    ensures forall i :: 0 <= i < |rows| ==>
      rows[i].orderCount == |OrdersBetween(lines, rows[i].day, rows[i].day + 1)| &&
      rows[i].revenue == RevenueBetween(lines, rows[i].day, rows[i].day + 1)
  {
    if lines == [] then []
    else
      var first, last := FirstDay(lines), LastDay(lines);
      assert first <= Day(lines[0].purchasedAt) <= last;
      DayRows(lines, first, last)
  }

  lemma DailySpan(lines: seq<OrderLine>)
    requires lines != []
    ensures FirstDay(lines) <= LastDay(lines)
    ensures Daily(lines) == DayRows(lines, FirstDay(lines), LastDay(lines))
    ensures forall j :: 0 <= j < |lines| ==> FirstDay(lines) <= Day(lines[j].purchasedAt) < LastDay(lines) + 1
  {
    assert FirstDay(lines) <= Day(lines[0].purchasedAt) <= LastDay(lines);
  }

  /** Every purchase day has its row in the daily table. */
  lemma DailyCoversPurchaseDays(lines: seq<OrderLine>, j: int)
    requires 0 <= j < |lines|
    ensures exists i :: 0 <= i < |Daily(lines)| && Daily(lines)[i].day == Day(lines[j].purchasedAt)
  {
    DailySpan(lines);
    var rows := Daily(lines);
    var i := Day(lines[j].purchasedAt) - FirstDay(lines);
    assert rows[i].day == Day(lines[j].purchasedAt);
  }

  /** A day with no purchases has a zero row. */
  lemma {:induction false} EmptyDayIsZero(lines: seq<OrderLine>, d: int)
    requires forall j :: 0 <= j < |lines| ==> Day(lines[j].purchasedAt) != d
    ensures OrdersBetween(lines, d, d + 1) == {}
    ensures RevenueBetween(lines, d, d + 1) == 0
  {
    if lines != [] {
      EmptyDayIsZero(lines[1..], d);
    }
  }

  /** A row of the daily table counts no order exactly when no line was
      purchased on its day, and such a row has no revenue either. */
  lemma DailyZeroRows(lines: seq<OrderLine>, i: int)
    requires 0 <= i < |Daily(lines)|
    ensures Daily(lines)[i].orderCount == 0 <==>
      forall j :: 0 <= j < |lines| ==> Day(lines[j].purchasedAt) != Daily(lines)[i].day
    ensures Daily(lines)[i].orderCount == 0 ==> Daily(lines)[i].revenue == 0
  {
    var d := Daily(lines)[i].day;
    if forall j :: 0 <= j < |lines| ==> Day(lines[j].purchasedAt) != d {
      EmptyDayIsZero(lines, d);
    } else {
      var j :| 0 <= j < |lines| && Day(lines[j].purchasedAt) == d;
      assert lines[j].orderId in OrdersBetween(lines, d, d + 1);
    }
  }

  /** Splitting a range of days at its first day splits its revenue. */
  lemma {:induction false} RevenueSplit(lines: seq<OrderLine>, a: int, b: int)
    requires a < b
    ensures RevenueBetween(lines, a, b) == RevenueBetween(lines, a, a + 1) + RevenueBetween(lines, a + 1, b)
  {
    if lines != [] {
      RevenueSplit(lines[1..], a, b);
    }
  }

  /** A range of days covering every purchase holds all of the revenue. */
  lemma {:induction false} RevenueCovered(lines: seq<OrderLine>, a: int, b: int)
    requires forall j :: 0 <= j < |lines| ==> a <= Day(lines[j].purchasedAt) < b
    ensures RevenueBetween(lines, a, b) == SumBy(lines, PriceOf)
  {
    if lines != [] {
      RevenueCovered(lines[1..], a, b);
    }
  }

  lemma {:induction false} DayRowsRevenue(lines: seq<OrderLine>, lo: int, hi: int)
    requires lo <= hi
    ensures SumBy(DayRows(lines, lo, hi), RevenueOf) == RevenueBetween(lines, lo, hi + 1)
    decreases hi - lo
  {
    if lo < hi {
      DayRowsRevenue(lines, lo + 1, hi);
    } else {
      assert RevenueBetween(lines, hi + 1, hi + 1) == 0 by {
        EmptyRange(lines, hi + 1);
      }
    }
    RevenueSplit(lines, lo, hi + 1);
  }

  lemma {:induction false} EmptyRange(lines: seq<OrderLine>, a: int)
    ensures RevenueBetween(lines, a, a) == 0
  {
    if lines != [] {
      EmptyRange(lines[1..], a);
    }
  }

  lemma SpanRevenue(lines: seq<OrderLine>, first: int, last: int)
    requires first <= last
    requires forall j :: 0 <= j < |lines| ==> first <= Day(lines[j].purchasedAt) < last + 1
    ensures SumBy(DayRows(lines, first, last), RevenueOf) == SumBy(lines, PriceOf)
  {
    DayRowsRevenue(lines, first, last);
    RevenueCovered(lines, first, last + 1);
  }

  /** The revenue column of the daily view sums to the total price of the
      filtered lines: the "Total Revenue" metric loses nothing to resampling. */
  lemma DailyRevenueTotal(lines: seq<OrderLine>)
    ensures SumBy(Daily(lines), RevenueOf) == SumBy(lines, PriceOf)
  {
    if lines != [] {
      DailySpan(lines);
      SpanRevenue(lines, FirstDay(lines), LastDay(lines));
    }
  }

  /** Every line of an order carries the order's purchase timestamp, so all of
      an order's lines fall on one day. */
  predicate OrderDaysConsistent(lines: seq<OrderLine>)
  {
    forall i, j :: 0 <= i < |lines| && 0 <= j < |lines| && lines[i].orderId == lines[j].orderId ==>
      Day(lines[i].purchasedAt) == Day(lines[j].purchasedAt)
  }

  lemma OrdersSplit(lines: seq<OrderLine>, a: int, b: int)
    requires a < b
    requires OrderDaysConsistent(lines)
    ensures |OrdersBetween(lines, a, b)| == |OrdersBetween(lines, a, a + 1)| + |OrdersBetween(lines, a + 1, b)|
  {
    assert OrdersBetween(lines, a, b) == OrdersBetween(lines, a, a + 1) + OrdersBetween(lines, a + 1, b);
    OrdersDisjoint(lines, a, b);
  }

  /** Under consistency, an order placed on day `a` has no line on a later day. */
  lemma OrdersDisjoint(lines: seq<OrderLine>, a: int, b: int)
    requires OrderDaysConsistent(lines)
    ensures OrdersBetween(lines, a, a + 1) !! OrdersBetween(lines, a + 1, b)
  {
    var head, tail := OrdersBetween(lines, a, a + 1), OrdersBetween(lines, a + 1, b);
    forall o | o in head
      ensures o !in tail
    {
      var l1 :| l1 in lines && Day(l1.purchasedAt) == a && l1.orderId == o;
      OneDayPerOrder(lines, l1);
    }
  }

  /** Under consistency, all of an order's lines carry the purchase day of any one of them. */
  lemma OneDayPerOrder(lines: seq<OrderLine>, l1: OrderLine)
    requires l1 in lines && OrderDaysConsistent(lines)
    ensures forall l2 :: l2 in lines && l2.orderId == l1.orderId ==> Day(l2.purchasedAt) == Day(l1.purchasedAt)
  {
    var i :| 0 <= i < |lines| && lines[i] == l1;
    forall l2 | l2 in lines && l2.orderId == l1.orderId
      ensures Day(l2.purchasedAt) == Day(l1.purchasedAt)
    {
      var j :| 0 <= j < |lines| && lines[j] == l2;
    }
  }

  lemma {:induction false} DayRowsOrders(lines: seq<OrderLine>, lo: int, hi: int)
    requires lo <= hi
    requires OrderDaysConsistent(lines)
    ensures SumBy(DayRows(lines, lo, hi), OrderCountOf) == |OrdersBetween(lines, lo, hi + 1)|
    decreases hi - lo
  {
    var rest := SumBy(DayRows(lines, lo + 1, hi), OrderCountOf);
    assert rest == |OrdersBetween(lines, lo + 1, hi + 1)| by {
      if lo < hi {
        DayRowsOrders(lines, lo + 1, hi);
      } else {
        assert OrdersBetween(lines, hi + 1, hi + 1) == {};
      }
    }
    calc {
      SumBy(DayRows(lines, lo, hi), OrderCountOf);
    == { DayRowsOrdersStep(lines, lo, hi); }
      |OrdersBetween(lines, lo, lo + 1)| + rest;
    == { OrdersSplit(lines, lo, hi + 1); }
      |OrdersBetween(lines, lo, hi + 1)|;
    }
  }

  /** The first row of `DayRows` carries the order count of its day. */
  lemma DayRowsOrdersStep(lines: seq<OrderLine>, lo: int, hi: int)
    requires lo <= hi
    ensures SumBy(DayRows(lines, lo, hi), OrderCountOf) ==
      |OrdersBetween(lines, lo, lo + 1)| + SumBy(DayRows(lines, lo + 1, hi), OrderCountOf)
  {
    var rows := DayRows(lines, lo, hi);
    assert rows[1..] == DayRows(lines, lo + 1, hi);
  }

  /** When every order's lines fall on one day, the order count column sums to
      the number of distinct orders in the filtered table (the "Total Orders"
      metric). */
  lemma DailyOrderTotal(lines: seq<OrderLine>)
    requires OrderDaysConsistent(lines)
    ensures SumBy(Daily(lines), OrderCountOf) == |set l | l in lines :: l.orderId|
  {
    if lines != [] {
      var first, last := FirstDay(lines), LastDay(lines);
      DayRowsOrders(lines, first, last);
      assert OrdersBetween(lines, first, last + 1) == set l | l in lines :: l.orderId by {
        forall l | l in lines
          ensures first <= Day(l.purchasedAt) < last + 1
        {
          var j :| 0 <= j < |lines| && lines[j] == l;
        }
      }
    } else {
      assert (set l | l in lines :: l.orderId) == {};
    }
  }

  /** Three lines on 2024-01-01 (day 19723), two of them in order "A", and one
      on 2024-01-02. */
  function ExampleLines(): seq<OrderLine>
  {
    [
      OrderLine("A", "p1", "c1", "SP", None, 10, DayStart(19723) + 3600),
      OrderLine("A", "p2", "c1", "SP", None, 20, DayStart(19723) + 3600),
      OrderLine("B", "p3", "c2", "RJ", None, 5, DayStart(19723) + 7200),
      OrderLine("C", "p1", "c3", "MG", None, 30, DayStart(19724) + 60)
    ]
  }

  lemma ExampleDays()
    ensures forall i :: 0 <= i < 3 ==> Day(ExampleLines()[i].purchasedAt) == 19723
    ensures Day(ExampleLines()[3].purchasedAt) == 19724
  {
    DayCharacterized(DayStart(19723) + 3600, 19723);
    DayCharacterized(DayStart(19723) + 7200, 19723);
    DayCharacterized(DayStart(19724) + 60, 19724);
  }

  lemma ExampleSpan()
    ensures FirstDay(ExampleLines()) == 19723 && LastDay(ExampleLines()) == 19724
  {
    ExampleDays();
  }

  lemma ExampleCells()
    ensures OrdersBetween(ExampleLines(), 19723, 19724) == {"A", "B"}
    ensures OrdersBetween(ExampleLines(), 19724, 19725) == {"C"}
    ensures RevenueBetween(ExampleLines(), 19723, 19724) == 35
    ensures RevenueBetween(ExampleLines(), 19724, 19725) == 30
    ensures |OrdersBetween(ExampleLines(), 19723, 19724)| == 2
    ensures |OrdersBetween(ExampleLines(), 19724, 19725)| == 1
  {
    ExampleDays();
    var lines := ExampleLines();
    assert lines[1..][1..][1..][1..] == [];
    assert |{"A", "B"}| == 2;
  }

  lemma TwoDayRows(lines: seq<OrderLine>, d: int, na: nat, nb: nat, ra: int, rb: int)
    requires lines != [] && FirstDay(lines) == d && LastDay(lines) == d + 1
    requires |OrdersBetween(lines, d, d + 1)| == na && |OrdersBetween(lines, d + 1, d + 2)| == nb
    requires RevenueBetween(lines, d, d + 1) == ra && RevenueBetween(lines, d + 1, d + 2) == rb
    ensures Daily(lines) == [DailyRow(d, na, ra), DailyRow(d + 1, nb, rb)]
  {
    var rows := Daily(lines);
    assert |rows| == 2 && rows[0].day == d && rows[1].day == d + 1;
    assert rows[0] == DailyRow(d, na, ra);
    assert rows[1] == DailyRow(d + 1, nb, rb);
  }

  /** The example gives two rows: two orders and 35 on the first day, one
      order and 30 on the second. */
  lemma TwoDayExample()
    ensures Daily(ExampleLines()) == [DailyRow(19723, 2, 35), DailyRow(19724, 1, 30)]
  {
    ExampleSpan();
    ExampleCells();
    TwoDayRows(ExampleLines(), 19723, 2, 1, 35, 30);
  }
}
