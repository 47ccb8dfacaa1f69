/**
  The three grouped views of the filtered order table: revenue per product
  category, revenue per product, and distinct customers per state.
 */
module Views {
  import opened Records
  import opened Seqs
  import opened Grouping

  function CategoryOf(l: OrderLine): Option<string> { l.category }
  function ProductOf(l: OrderLine): Option<string> { Some(l.productId) }
  function StateOf(l: OrderLine): Option<string> { Some(l.customerState) }
  function HasCategory(l: OrderLine): bool { l.category.Some? }

  // ---------------------------------------------------------------------------
  // Top product categories

  /** The category names present in the table (missing ones left out). */
  ghost function Categories(lines: seq<OrderLine>): set<string>
  {
    set l | l in lines && l.category.Some? :: l.category.value
  }

  lemma CategoryKeys(lines: seq<OrderLine>)
    ensures PresentKeys(lines, CategoryOf) == Categories(lines)
  {
    forall c | c in Categories(lines)
      ensures c in PresentKeys(lines, CategoryOf)
    {
      var l :| l in lines && l.category == Some(c);
      var j :| 0 <= j < |lines| && lines[j] == l;
      assert CategoryOf(lines[j]) == Some(c);
    }
  }

  /** The category view: `key` is the category name, `total` its total revenue
      and `count` its number of lines (the total quantity), in non-increasing
      order of revenue; one row per category, and lines without a category
      are in no row. */
  function TopProductCategory(lines: seq<OrderLine>): (r: seq<Group<string>>)
    ensures SortedDesc(r, TotalOf)
    ensures KeysDistinct(r)
    ensures GroupKeys(r) == Categories(lines)
    ensures forall i :: 0 <= i < |r| ==>
      r[i].total == TotalFor(lines, CategoryOf, PriceOf, r[i].key) &&
      1 <= r[i].count == CountFor(lines, CategoryOf, r[i].key)
  {
    CategoryKeys(lines);
    SortedGroupBy(lines, CategoryOf, PriceOf)
  }

  /** The category view loses no revenue and no line: its revenue column sums
      to the total price, and its quantity column to the number, of the lines
      that have a category. */
  lemma TopProductCategoryTotals(lines: seq<OrderLine>)
    ensures SumBy(TopProductCategory(lines), TotalOf) == SumBy(Filter(lines, HasCategory), PriceOf)
    ensures SumBy(TopProductCategory(lines), CountOf) == |Filter(lines, HasCategory)|
  {
    GroupByPreservesSums(lines, CategoryOf, PriceOf);
    UnitTotalIsCount(lines);
    PresentTotalIsFilteredSum(lines);
  }

  lemma {:induction false} PresentTotalIsFilteredSum(lines: seq<OrderLine>)
    ensures PresentTotal(lines, CategoryOf, PriceOf) == SumBy(Filter(lines, HasCategory), PriceOf)
  {
    if lines != [] {
      PresentTotalIsFilteredSum(lines[1..]);
      var rest := Filter(lines[1..], HasCategory);
      if HasCategory(lines[0]) {
        assert ([lines[0]] + rest)[1..] == rest;
      }
    }
  }

  lemma {:induction false} UnitTotalIsCount(lines: seq<OrderLine>)
    ensures PresentTotal(lines, CategoryOf, One) == |Filter(lines, HasCategory)|
  {
    if lines != [] {
      UnitTotalIsCount(lines[1..]);
    }
  }

  /** Lines without a category do not affect the category view at all. */
  lemma NullCategoriesIgnored(lines: seq<OrderLine>)
    ensures TopProductCategory(Filter(lines, HasCategory)) == TopProductCategory(lines)
  {
    var kept := Filter(lines, HasCategory);
    KeysIgnoreNulls(lines);
    forall k: string
      ensures TotalFor(kept, CategoryOf, PriceOf, k) == TotalFor(lines, CategoryOf, PriceOf, k)
      ensures CountFor(kept, CategoryOf, k) == CountFor(lines, CategoryOf, k)
    {
      SumsIgnoreNulls(lines, k);
    }
    var ks := Distinct(KeysOf(lines, CategoryOf));
    RowsAgree(kept, lines, ks);
  }

  lemma {:induction false} KeysIgnoreNulls(lines: seq<OrderLine>)
    ensures KeysOf(Filter(lines, HasCategory), CategoryOf) == KeysOf(lines, CategoryOf)
  {
    if lines != [] {
      KeysIgnoreNulls(lines[1..]);
      var rest := Filter(lines[1..], HasCategory);
      if HasCategory(lines[0]) {
        assert ([lines[0]] + rest)[1..] == rest;
      }
    }
  }

  lemma {:induction false} SumsIgnoreNulls(lines: seq<OrderLine>, k: string)
    ensures TotalFor(Filter(lines, HasCategory), CategoryOf, PriceOf, k) == TotalFor(lines, CategoryOf, PriceOf, k)
    ensures CountFor(Filter(lines, HasCategory), CategoryOf, k) == CountFor(lines, CategoryOf, k)
  {
    if lines != [] {
      SumsIgnoreNulls(lines[1..], k);
      var rest := Filter(lines[1..], HasCategory);
      if HasCategory(lines[0]) {
        assert ([lines[0]] + rest)[1..] == rest;
      }
    }
  }

  lemma {:induction false} RowsAgree(a: seq<OrderLine>, b: seq<OrderLine>, ks: seq<string>)
    requires forall k :: TotalFor(a, CategoryOf, PriceOf, k) == TotalFor(b, CategoryOf, PriceOf, k)
    requires forall k :: CountFor(a, CategoryOf, k) == CountFor(b, CategoryOf, k)
    ensures GroupRows(a, CategoryOf, PriceOf, ks) == GroupRows(b, CategoryOf, PriceOf, ks)
  {
    if ks != [] {
      RowsAgree(a, b, ks[1..]);
    }
  }

  // ---------------------------------------------------------------------------
  // Top products

  /** One row of the product view: a product and its summed line price. */
  datatype ProductRow = ProductRow(productId: string, price: int)

  function RowPrice(p: ProductRow): int { p.price }

  function ProductRows(groups: seq<Group<string>>): (r: seq<ProductRow>)
    ensures |r| == |groups|
    ensures forall i :: 0 <= i < |r| ==> r[i].productId == groups[i].key && r[i].price == groups[i].total
    ensures SumBy(r, RowPrice) == SumBy(groups, TotalOf)
  {
    if groups == [] then []
    else [ProductRow(groups[0].key, groups[0].total)] + ProductRows(groups[1..])
  }

  /** The product ids present in the table. */
  ghost function Products(lines: seq<OrderLine>): set<string>
  {
    set l | l in lines :: l.productId
  }

  lemma ProductKeys(lines: seq<OrderLine>)
    ensures PresentKeys(lines, ProductOf) == Products(lines)
  {
    forall p | p in Products(lines)
      ensures p in PresentKeys(lines, ProductOf)
    {
      var l :| l in lines && l.productId == p;
      var j :| 0 <= j < |lines| && lines[j] == l;
      assert ProductOf(lines[j]) == Some(p);
    }
  }

  /** The product view: one row per distinct product with its summed price,
      in non-increasing order of that price. */
  function TopProducts(lines: seq<OrderLine>): (r: seq<ProductRow>)
    ensures SortedDesc(r, RowPrice)
    ensures forall i, j :: 0 <= i < j < |r| ==> r[i].productId != r[j].productId
    ensures (set i | 0 <= i < |r| :: r[i].productId) == Products(lines)
    ensures forall i :: 0 <= i < |r| ==> r[i].price == TotalFor(lines, ProductOf, PriceOf, r[i].productId)
  {
    var groups := SortedGroupBy(lines, ProductOf, PriceOf);
    var r := ProductRows(groups);
    ProductKeys(lines);
    assert (set i | 0 <= i < |r| :: r[i].productId) == GroupKeys(groups);
    r
  }

  /** The product view's price column sums to the total price of the table. */
  lemma TopProductsTotal(lines: seq<OrderLine>)
    ensures SumBy(TopProducts(lines), RowPrice) == SumBy(lines, PriceOf)
  {
    GroupByPreservesSums(lines, ProductOf, PriceOf);
    EveryProductPresent(lines);
  }

  lemma {:induction false} EveryProductPresent(lines: seq<OrderLine>)
    ensures PresentTotal(lines, ProductOf, PriceOf) == SumBy(lines, PriceOf)
  {
    if lines != [] {
      EveryProductPresent(lines[1..]);
    }
  }

  // ---------------------------------------------------------------------------
  // Customers by state

  /** One row of the state view: a state and its number of distinct customers. */
  datatype StateRow = StateRow(state: string, customerCount: nat)

  function CustomerCountOf(r: StateRow): int { r.customerCount }

  /** The distinct customers with a line in state `st`. */
  function CustomersIn(lines: seq<OrderLine>, st: string): set<string>
  {
    set l | l in lines && l.customerState == st :: l.customerId
  }

  function StateRows(lines: seq<OrderLine>, ks: seq<string>): (r: seq<StateRow>)
    ensures |r| == |ks|
    ensures forall i :: 0 <= i < |r| ==> r[i].state == ks[i] && r[i].customerCount == |CustomersIn(lines, ks[i])|
  {
    if ks == [] then []
    else [StateRow(ks[0], |CustomersIn(lines, ks[0])|)] + StateRows(lines, ks[1..])
  }

  /** The states present in the table. */
  ghost function States(lines: seq<OrderLine>): set<string>
  {
    set l | l in lines :: l.customerState
  }

  /** `groupby("customer_state").customer_id.nunique()`: one row per state,
      counting each customer once; the row order is not part of the view. */
  function CustomersByState(lines: seq<OrderLine>): (r: seq<StateRow>)
    ensures forall i, j :: 0 <= i < j < |r| ==> r[i].state != r[j].state
    ensures (set i | 0 <= i < |r| :: r[i].state) == States(lines)
    ensures forall i :: 0 <= i < |r| ==> r[i].customerCount == |CustomersIn(lines, r[i].state)|
    // a state's count is at least one and at most its number of lines
    ensures forall i :: 0 <= i < |r| ==> 1 <= r[i].customerCount <= CountFor(lines, StateOf, r[i].state)
  {
    var ks := Distinct(KeysOf(lines, StateOf));
    var r := StateRows(lines, ks);
    StateRowsFacts(lines, ks, r);
    r
  }

  lemma StateRowsFacts(lines: seq<OrderLine>, ks: seq<string>, r: seq<StateRow>)
    requires forall k :: k in ks <==> exists j :: 0 <= j < |lines| && StateOf(lines[j]) == Some(k)
    requires r == StateRows(lines, ks)
    ensures (set i | 0 <= i < |r| :: r[i].state) == States(lines)
    ensures forall i :: 0 <= i < |r| ==> 1 <= r[i].customerCount <= CountFor(lines, StateOf, r[i].state)
  {
    forall i | 0 <= i < |r|
      ensures 1 <= r[i].customerCount <= CountFor(lines, StateOf, r[i].state)
    {
      var j :| 0 <= j < |lines| && StateOf(lines[j]) == Some(ks[i]);
      assert lines[j].customerId in CustomersIn(lines, ks[i]);
      CustomersAtMostLines(lines, ks[i]);
    }
    forall st | st in States(lines)
      ensures st in set i | 0 <= i < |r| :: r[i].state
    {
      var l :| l in lines && l.customerState == st;
      var j :| 0 <= j < |lines| && lines[j] == l;
      assert StateOf(lines[j]) == Some(st);
      var i :| 0 <= i < |ks| && ks[i] == st;
      assert r[i].state == st;
    }
    forall i | 0 <= i < |r|
      ensures r[i].state in States(lines)
    {
      var j :| 0 <= j < |lines| && StateOf(lines[j]) == Some(ks[i]);
    }
  }

  lemma {:induction false} CustomersAtMostLines(lines: seq<OrderLine>, st: string)
    ensures |CustomersIn(lines, st)| <= CountFor(lines, StateOf, st)
  {
    if lines == [] {
      assert CustomersIn(lines, st) == {};
    } else {
      CustomersAtMostLines(lines[1..], st);
      var head: set<string> := if lines[0].customerState == st then {lines[0].customerId} else {};
      assert CustomersIn(lines, st) == head + CustomersIn(lines[1..], st) by {
        assert forall l :: l in lines <==> l == lines[0] || l in lines[1..] by {
          assert lines == [lines[0]] + lines[1..];
        }
      }
    }
  }

  /** Every customer lives in one state. */
  predicate CustomerStateConsistent(lines: seq<OrderLine>)
  {
    forall i, j :: 0 <= i < |lines| && 0 <= j < |lines| && lines[i].customerId == lines[j].customerId ==>
      lines[i].customerState == lines[j].customerState
  }

  /** The distinct customers with a line in one of the states `ks`. */
  function CustomersInStates(lines: seq<OrderLine>, ks: seq<string>): set<string>
  {
    set l | l in lines && l.customerState in ks :: l.customerId
  }

  lemma {:induction false} StateRowsCount(lines: seq<OrderLine>, ks: seq<string>)
    requires NoDuplicates(ks)
    requires CustomerStateConsistent(lines)
    ensures SumBy(StateRows(lines, ks), CustomerCountOf) == |CustomersInStates(lines, ks)|
  {
    if ks == [] {
      assert CustomersInStates(lines, ks) == {};
    } else {
      NoDuplicatesTail(ks);
      StateRowsCount(lines, ks[1..]);
      StatesSplit(lines, ks);
    }
  }

  /** The customers of a list of distinct states split into the first state's
      and the rest's, with no customer in both. */
  lemma StatesSplit(lines: seq<OrderLine>, ks: seq<string>)
    requires ks != [] && NoDuplicates(ks)
    requires CustomerStateConsistent(lines)
    ensures |CustomersInStates(lines, ks)| == |CustomersIn(lines, ks[0])| + |CustomersInStates(lines, ks[1..])|
  {
    StatesUnion(lines, ks);
    StatesDisjoint(lines, ks);
  }

  lemma StatesUnion(lines: seq<OrderLine>, ks: seq<string>)
    requires ks != []
    ensures CustomersInStates(lines, ks) == CustomersIn(lines, ks[0]) + CustomersInStates(lines, ks[1..])
  {
    assert forall s :: s in ks <==> s == ks[0] || s in ks[1..] by {
      assert ks == [ks[0]] + ks[1..];
    }
  }

  lemma StatesDisjoint(lines: seq<OrderLine>, ks: seq<string>)
    requires ks != [] && NoDuplicates(ks)
    requires CustomerStateConsistent(lines)
    ensures CustomersIn(lines, ks[0]) !! CustomersInStates(lines, ks[1..])
  {
    HeadNotInTail(ks);
    forall c | c in CustomersIn(lines, ks[0])
      ensures c !in CustomersInStates(lines, ks[1..])
    {
      var l1 :| l1 in lines && l1.customerState == ks[0] && l1.customerId == c;
      OneStatePerCustomer(lines, l1);
    }
  }

  /** Under consistency, all of a customer's lines carry the state of any one of them. */
  lemma OneStatePerCustomer(lines: seq<OrderLine>, l1: OrderLine)
    requires l1 in lines && CustomerStateConsistent(lines)
    ensures forall l2 :: l2 in lines && l2.customerId == l1.customerId ==> l2.customerState == l1.customerState
  {
    var i :| 0 <= i < |lines| && lines[i] == l1;
    forall l2 | l2 in lines && l2.customerId == l1.customerId
      ensures l2.customerState == l1.customerState
    {
      var j :| 0 <= j < |lines| && lines[j] == l2;
    }
  }

  /** When every customer lives in one state, the counts of the state view add
      up to the number of distinct customers in the table. */
  lemma CustomersByStateTotal(lines: seq<OrderLine>)
    requires CustomerStateConsistent(lines)
    ensures SumBy(CustomersByState(lines), CustomerCountOf) == |set l | l in lines :: l.customerId|
  {
    var ks := Distinct(KeysOf(lines, StateOf));
    StateRowsCount(lines, ks);
    forall l | l in lines
      ensures l.customerState in ks
    {
      var j :| 0 <= j < |lines| && lines[j] == l;
      assert StateOf(lines[j]) == Some(l.customerState);
    }
    assert CustomersInStates(lines, ks) == set l | l in lines :: l.customerId;
  }
}
