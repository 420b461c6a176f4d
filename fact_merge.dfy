/** The `transform_to_fact_orders` statement: the projection of staged orders
    into one denormalised row per line item, enriched by left joins against
    the customer and product dimensions and by a fixed region lookup, and the
    NOT EXISTS guard that makes the insert "insert-if-absent" by order id. */
module FactMerge {
  import opened Tables

  const DEFAULT_TIER: string := "bronze"
  const WEST: string := "West"
  const EAST: string := "East"
  const SOUTH: string := "South"
  const OTHER: string := "Other"

  /** The CASE expression on `shipping_address.state`. A NULL state satisfies no `IN` list. */
  function RegionOf(state: Option<string>): (r: string)
    ensures r in {WEST, EAST, SOUTH, OTHER}
    ensures r == WEST <==> state.Some? && state.value in {"CA", "OR", "WA"}
    ensures r == EAST <==> state.Some? && state.value in {"NY", "NJ", "PA"}
    ensures r == SOUTH <==> state.Some? && state.value in {"TX", "AZ", "NM"}
    ensures r == OTHER <==> state.None? || state.value !in {"CA", "OR", "WA", "NY", "NJ", "PA", "TX", "AZ", "NM"}
  {
    if state.None? then OTHER
    else if state.value in {"CA", "OR", "WA"} then WEST
    else if state.value in {"NY", "NJ", "PA"} then EAST
    else if state.value in {"TX", "AZ", "NM"} then SOUTH
    else OTHER
  }

  /** A row of `dim_customers`, keyed by `customer_id`. */
  datatype CustomerDim = CustomerDim(customerTier: Option<string>)

  /** A row of `dim_products`, keyed by `product_id`. */
  datatype ProductDim = ProductDim(productName: Option<string>, category: Option<string>)

  /** `COALESCE(c.customer_tier, 'bronze')` over `LEFT JOIN dim_customers c`. */
  function TierOf(customers: map<string, CustomerDim>, id: string): (r: string)
    ensures id in customers && customers[id].customerTier.Some? ==> r == customers[id].customerTier.value
    ensures id !in customers || customers[id].customerTier.None? ==> r == DEFAULT_TIER
  {
    if id in customers && customers[id].customerTier.Some? then customers[id].customerTier.value else DEFAULT_TIER
  }

  /** `LEFT JOIN dim_products p ON item.product_id = p.product_id`: a NULL product id matches nothing. */
  function ProductFor(products: map<string, ProductDim>, productId: Option<string>): (r: Option<ProductDim>)
    ensures r.Some? <==> productId.Some? && productId.value in products
    ensures r.Some? ==> r.value == products[productId.value]
  {
    if productId.Some? && productId.value in products then Some(products[productId.value]) else None
  }

  /** A row of `fact_orders`. */
  datatype FactRow = FactRow(
    orderId: string,
    customerId: string,
    customerTier: string,
    orderTimestamp: int,
    orderDate: int,
    orderHour: int,
    productId: Option<string>,
    productName: Option<string>,
    category: Option<string>,
    quantity: Option<int>,
    unitPrice: Option<int>,
    lineTotal: Option<int>,
    totalAmount: int,
    paymentStatus: Option<string>,
    city: Option<string>,
    state: Option<string>,
    country: Option<string>,
    region: string)

  /** The derived columns of a fact row agree with the columns they are computed from. */
  predicate WellFormed(f: FactRow) {
    && f.orderDate == DateOf(f.orderTimestamp)
    && f.orderHour == HourOfDay(f.orderTimestamp)
    && f.lineTotal == LineTotal(f.quantity, f.unitPrice)
    && f.region == RegionOf(f.state)
  }

  /** The SELECT list for an order joined with one item, or with NULL when `LEFT JOIN UNNEST`
      finds no item. */
  function FactRowOf(o: StagedOrder, item: Option<Item>,
                     customers: map<string, CustomerDim>, products: map<string, ProductDim>): FactRow
  {
    var product := if item.Some? then ProductFor(products, item.value.productId) else None;
    FactRow(
      orderId := o.orderId,
      customerId := o.customerId,
      customerTier := TierOf(customers, o.customerId),
      orderTimestamp := o.orderTimestamp,
      orderDate := DateOf(o.orderTimestamp),
      orderHour := HourOfDay(o.orderTimestamp),
      productId := if item.Some? then item.value.productId else None,
      productName := if product.Some? then product.value.productName else None,
      category := if product.Some? then product.value.category else None,
      quantity := if item.Some? then item.value.quantity else None,
      unitPrice := if item.Some? then item.value.unitPrice else None,
      lineTotal := if item.Some? then LineTotal(item.value.quantity, item.value.unitPrice) else None,
      totalAmount := o.totalAmount,
      paymentStatus := o.paymentStatus,
      city := CityOf(o),
      state := StateOf(o),
      country := CountryOf(o),
      region := RegionOf(StateOf(o)))
  }

  /** The order-level columns every fact row of `o` copies or derives from the order. */
  predicate FromOrder(f: FactRow, o: StagedOrder, customers: map<string, CustomerDim>) {
    && f.orderId == o.orderId
    && f.customerId == o.customerId
    && f.customerTier == TierOf(customers, o.customerId)
    && f.orderTimestamp == o.orderTimestamp
    && f.totalAmount == o.totalAmount
    && f.paymentStatus == o.paymentStatus
    && f.city == CityOf(o) && f.state == StateOf(o) && f.country == CountryOf(o)
  }

  /** The fact rows of one staged order: one per line item, and a single row with NULL item
      columns when the order has no items. No item is dropped for lack of a product match. */
  function FactRowsFor(o: StagedOrder, customers: map<string, CustomerDim>, products: map<string, ProductDim>)
    : (r: seq<FactRow>)
    ensures |r| == if o.items == [] then 1 else |o.items|
    ensures forall f :: f in r ==> WellFormed(f) && FromOrder(f, o, customers)
    ensures o.items == [] ==>
      r[0].productId.None? && r[0].quantity.None? && r[0].unitPrice.None? && r[0].lineTotal.None? &&
      r[0].productName.None? && r[0].category.None?
    ensures forall k :: 0 <= k < |o.items| ==>
      && r[k].productId == o.items[k].productId
      && r[k].quantity == o.items[k].quantity
      && r[k].unitPrice == o.items[k].unitPrice
      && (ProductFor(products, o.items[k].productId).None? ==> r[k].productName.None? && r[k].category.None?)
      && (ProductFor(products, o.items[k].productId).Some? ==>
            r[k].productName == ProductFor(products, o.items[k].productId).value.productName &&
            r[k].category == ProductFor(products, o.items[k].productId).value.category)
  {
    if o.items == [] then [FactRowOf(o, None, customers, products)]
    else seq(|o.items|, k requires 0 <= k < |o.items| => FactRowOf(o, Some(o.items[k]), customers, products))
  }

  /** The order ids present in a fact table. */
  function FactIds(facts: seq<FactRow>): set<string> {
    set f | f in facts :: f.orderId
  }

  /** The order ids of the day's staged rows. */
  function WindowIds(s: seq<StagedOrder>, today: int): set<string> {
    set o | o in s && InWindow(o, today) :: o.orderId
  }

  /** The rows the INSERT ... SELECT adds: for each staged row of the day whose order id is absent
      from `facts` (the table as it was before the statement), its fact rows, in staging order. */
  function NewFactRows(s: seq<StagedOrder>, facts: seq<FactRow>, today: int,
                       customers: map<string, CustomerDim>, products: map<string, ProductDim>)
    : (r: seq<FactRow>)
    ensures forall f :: f in r ==> WellFormed(f) && f.orderDate == today && f.orderId !in FactIds(facts)
  {
    if s == [] then []
    else
      (if InWindow(s[0], today) && s[0].orderId !in FactIds(facts) then FactRowsFor(s[0], customers, products) else []) +
      NewFactRows(s[1..], facts, today, customers, products)
  }

  /** The insert is a per-row filter: the rows of two parts of staging are those of each part,
      in order, both judged against the table as it was before the statement. */
  lemma {:induction false} NewFactRowsAppend(a: seq<StagedOrder>, b: seq<StagedOrder>, facts: seq<FactRow>, today: int,
                                             customers: map<string, CustomerDim>, products: map<string, ProductDim>)
    ensures NewFactRows(a + b, facts, today, customers, products) ==
            NewFactRows(a, facts, today, customers, products) + NewFactRows(b, facts, today, customers, products)
  {
    if a == [] {
      assert a + b == b;
    } else {
      assert (a + b)[0] == a[0];
      assert (a + b)[1..] == a[1..] + b;
      NewFactRowsAppend(a[1..], b, facts, today, customers, products);
    }
  }

  /** Each staged row contributes on its own: all of its fact rows, one per item, when it is of
      the day and its id is not yet in the table, and nothing otherwise. */
  lemma NewFactRowsPerRow(a: seq<StagedOrder>, o: StagedOrder, b: seq<StagedOrder>, facts: seq<FactRow>, today: int,
                          customers: map<string, CustomerDim>, products: map<string, ProductDim>)
    ensures NewFactRows(a + [o] + b, facts, today, customers, products) ==
            NewFactRows(a, facts, today, customers, products) +
            (if InWindow(o, today) && o.orderId !in FactIds(facts) then FactRowsFor(o, customers, products) else []) +
            NewFactRows(b, facts, today, customers, products)
  {
    NewFactRowsAppend(a + [o], b, facts, today, customers, products);
    NewFactRowsAppend(a, [o], facts, today, customers, products);
    assert [o][1..] == [];
  }

  lemma FactIdsAppend(a: seq<FactRow>, b: seq<FactRow>)
    ensures FactIds(a + b) == FactIds(a) + FactIds(b)
  {
    assert forall f :: f in a + b <==> f in a || f in b;
  }

  lemma {:induction false} WindowIdsCons(s: seq<StagedOrder>, today: int)
    requires s != []
    ensures WindowIds(s, today) == (if InWindow(s[0], today) then {s[0].orderId} else {}) + WindowIds(s[1..], today)
  {
    assert forall o :: o in s <==> o == s[0] || o in s[1..];
  }

  /** Insert-if-absent: the inserted order ids are exactly the ids of the day's staged rows that
      the fact table did not already hold. */
  lemma {:induction false} NewFactRowIds(s: seq<StagedOrder>, facts: seq<FactRow>, today: int,
                                         customers: map<string, CustomerDim>, products: map<string, ProductDim>)
    ensures FactIds(NewFactRows(s, facts, today, customers, products)) == WindowIds(s, today) - FactIds(facts)
  {
    if s == [] {
      assert WindowIds(s, today) == {};
    } else {
      var head := if InWindow(s[0], today) && s[0].orderId !in FactIds(facts)
                  then FactRowsFor(s[0], customers, products) else [];
      var rest := NewFactRows(s[1..], facts, today, customers, products);
      NewFactRowIds(s[1..], facts, today, customers, products);
      FactIdsAppend(head, rest);
      WindowIdsCons(s, today);
      if head != [] {
        assert head[0] in head;
        assert FactIds(head) == {s[0].orderId};
      } else {
        assert FactIds(head) == {};
      }
    }
  }

  lemma {:induction false} NothingNewWhenPresent(s: seq<StagedOrder>, facts: seq<FactRow>, today: int,
                                                 customers: map<string, CustomerDim>, products: map<string, ProductDim>)
    requires WindowIds(s, today) <= FactIds(facts)
    ensures NewFactRows(s, facts, today, customers, products) == []
  {
    if s != [] {
      WindowIdsCons(s, today);
      NothingNewWhenPresent(s[1..], facts, today, customers, products);
    }
  }

  /** Re-running the statement over the same staging and day, after it has run once, inserts
      nothing. */
  lemma FactMergeIdempotent(s: seq<StagedOrder>, facts: seq<FactRow>, today: int,
                            customers: map<string, CustomerDim>, products: map<string, ProductDim>)
    ensures NewFactRows(s, facts + NewFactRows(s, facts, today, customers, products), today, customers, products) == []
  {
    var added := NewFactRows(s, facts, today, customers, products);
    NewFactRowIds(s, facts, today, customers, products);
    FactIdsAppend(facts, added);
    NothingNewWhenPresent(s, facts + added, today, customers, products);
  }

  /** NOT EXISTS looks only at the table as it was before the statement: two staged copies of an
      order that is new today are both inserted. */
  lemma StagedCopiesBothInserted(o: StagedOrder, facts: seq<FactRow>, today: int,
                                 customers: map<string, CustomerDim>, products: map<string, ProductDim>)
    requires InWindow(o, today) && o.orderId !in FactIds(facts)
    ensures NewFactRows([o, o], facts, today, customers, products) ==
            FactRowsFor(o, customers, products) + FactRowsFor(o, customers, products)
  {
    var rows := FactRowsFor(o, customers, products);
    assert [o, o][1..] == [o];
    assert [o][1..] == [];
    assert NewFactRows([o], facts, today, customers, products) == rows + [];
  }
}
