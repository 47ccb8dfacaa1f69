/**
  The filter engine: the period and category masks applied to the order
  table, and the category join that selects the RFM rows.
 */
module Filters {
  import opened Records
  import opened Seqs

  /** Whether a line passes the period mask. The selected dates are compared
      with the full purchase timestamp as midnight of each date, so both bounds
      are instants: the whole start day is inside, and of the end day only the
      instant of midnight itself. */
  predicate InPeriod(l: OrderLine, startDay: int, endDay: int)
  {
    DayStart(startDay) <= l.purchasedAt <= DayStart(endDay)
  }

  /** The period mask over the order table. */
  function DateFilter(lines: seq<OrderLine>, startDay: int, endDay: int): (r: seq<OrderLine>)
    ensures SubsequenceOf(r, lines)
    ensures forall l :: multiset(r)[l] == if InPeriod(l, startDay, endDay) then multiset(lines)[l] else 0
    // in calendar terms: on or after the start day, and before the end day or
    // exactly at its midnight
    ensures forall l :: l in r <==>
      l in lines && startDay <= Day(l.purchasedAt) &&
      (Day(l.purchasedAt) < endDay || l.purchasedAt == DayStart(endDay))
  {
    var keep := (l: OrderLine) => InPeriod(l, startDay, endDay);
    var r := Filter(lines, keep);
    forall l: OrderLine
      ensures InPeriod(l, startDay, endDay) <==>
        startDay <= Day(l.purchasedAt) &&
        (Day(l.purchasedAt) < endDay || l.purchasedAt == DayStart(endDay))
    {
      DayCharacterized(l.purchasedAt, Day(l.purchasedAt));
    }
    r
  }

  /** A purchase on the end day after its first instant is outside the period. */
  lemma EndDayAfterMidnightExcluded(lines: seq<OrderLine>, startDay: int, endDay: int, l: OrderLine)
    requires Day(l.purchasedAt) == endDay && l.purchasedAt != DayStart(endDay)
    ensures l !in DateFilter(lines, startDay, endDay)
  {
  }

  /** Whether a line passes the category mask for `selection`; the sentinel
      "All" lets every line through, and a missing category never equals a
      selected name. */
  predicate InCategory(l: OrderLine, selection: string)
  {
    selection == AllCategories || l.category == Some(selection)
  }

  /** The category mask over the order table. */
  function CategoryFilter(lines: seq<OrderLine>, selection: string): (r: seq<OrderLine>)
    ensures selection == AllCategories ==> r == lines
    ensures SubsequenceOf(r, lines)
    ensures selection != AllCategories ==>
      forall l :: multiset(r)[l] == if l.category == Some(selection) then multiset(lines)[l] else 0
    ensures selection != AllCategories ==> forall l :: l in r ==> l.category.Some?
  {
    if selection == AllCategories then
      SubsequenceOfSelf(lines);
      lines
    else Filter(lines, (l: OrderLine) => l.category == Some(selection))
  }

  /** The filtered order table every view is computed from: the period mask,
      then the category mask. */
  function FilterOrders(lines: seq<OrderLine>, startDay: int, endDay: int, selection: string): (r: seq<OrderLine>)
    ensures SubsequenceOf(r, lines)
    ensures forall l ::
      multiset(r)[l] == if InPeriod(l, startDay, endDay) && InCategory(l, selection) then multiset(lines)[l] else 0
    ensures forall l :: l in r <==> l in lines && InPeriod(l, startDay, endDay) && InCategory(l, selection)
  {
    var dated := DateFilter(lines, startDay, endDay);
    var r := CategoryFilter(dated, selection);
    SubsequenceTransitive(r, dated, lines);
    forall l
      ensures l in r <==> l in dated && InCategory(l, selection)
    {
      if selection != AllCategories {
        assert l in r <==> l in multiset(r);
        assert l in dated <==> l in multiset(dated);
      }
    }
    r
  }

  /** The customers that have at least one line in `category` anywhere in the
      order table. */
  function CategoryCustomers(lines: seq<OrderLine>, category: string): (cs: set<string>)
    ensures forall c :: c in cs <==>
      exists i :: 0 <= i < |lines| && lines[i].customerId == c && lines[i].category == Some(category)
  {
    set l | l in lines && l.category == Some(category) :: l.customerId
  }

  /** The RFM rows shown for a category selection: all rows for "All",
      otherwise the rows whose customer bought in that category at any time.
      The order table is the unfiltered one, so the period plays no part. */
  function RfmSubset(rfm: seq<RfmRecord>, lines: seq<OrderLine>, selection: string): (r: seq<RfmRecord>)
    ensures selection == AllCategories ==> r == rfm
    ensures SubsequenceOf(r, rfm)
    ensures selection != AllCategories ==> forall x ::
      multiset(r)[x] == if x.customerId in CategoryCustomers(lines, selection) then multiset(rfm)[x] else 0
    ensures selection != AllCategories ==> forall x :: x in r <==>
      x in rfm &&
      exists i :: 0 <= i < |lines| && lines[i].customerId == x.customerId && lines[i].category == Some(selection)
  {
    if selection == AllCategories then
      SubsequenceOfSelf(rfm);
      rfm
    else
      var buyers := CategoryCustomers(lines, selection);
      Filter(rfm, (x: RfmRecord) => x.customerId in buyers)
  }
}
