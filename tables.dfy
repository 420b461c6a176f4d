/** Row types of the staging table and the clock arithmetic that the SQL of the
    order pipeline applies to timestamps. Amounts are integer cents, timestamps
    are seconds since the epoch (UTC), and a SQL NULL is `None`. */
module Tables {

  datatype Option<+T> = None | Some(value: T)

  const SECONDS_PER_HOUR: int := 3600
  const SECONDS_PER_DAY: int := 86400

  /** DATE(ts): the day number of a timestamp. */
  function DateOf(ts: int): int {
    ts / SECONDS_PER_DAY
  }

  /** TIMESTAMP_TRUNC(ts, HOUR): the start of the hour that holds `ts`. */
  function TruncHour(ts: int): (h: int)
    ensures h <= ts < h + SECONDS_PER_HOUR
    ensures h % SECONDS_PER_HOUR == 0
  {
    ts - ts % SECONDS_PER_HOUR
  }

  /** EXTRACT(HOUR FROM ts): the hour of the day, in UTC. */
  function HourOfDay(ts: int): (h: int)
    ensures 0 <= h < 24
  {
    (ts % SECONDS_PER_DAY) / SECONDS_PER_HOUR
  }

  /** Truncating to the hour stays inside the same day, at the hour EXTRACT reports. */
  lemma TruncHourSameDay(ts: int)
    ensures DateOf(TruncHour(ts)) == DateOf(ts)
    ensures TruncHour(ts) == DateOf(ts) * SECONDS_PER_DAY + HourOfDay(ts) * SECONDS_PER_HOUR
  {
    var d, r := ts / SECONDS_PER_DAY, ts % SECONDS_PER_DAY;
    assert ts == d * SECONDS_PER_DAY + r && 0 <= r < SECONDS_PER_DAY;
    var hh, m := r / SECONDS_PER_HOUR, r % SECONDS_PER_HOUR;
    assert r == hh * SECONDS_PER_HOUR + m && 0 <= m < SECONDS_PER_HOUR;
    assert ts == (d * 24 + hh) * SECONDS_PER_HOUR + m;
    assert ts % SECONDS_PER_HOUR == m;
    assert TruncHour(ts) == d * SECONDS_PER_DAY + hh * SECONDS_PER_HOUR;
    assert 0 <= hh * SECONDS_PER_HOUR < SECONDS_PER_DAY;
  }

  /** One element of the REPEATED `items` record; each field is NULLABLE. */
  datatype Item = Item(productId: Option<string>, quantity: Option<int>, unitPrice: Option<int>)

  /** The NULLABLE `shipping_address` record; each field is NULLABLE. */
  datatype Address = Address(
    street: Option<string>,
    city: Option<string>,
    state: Option<string>,
    zipcode: Option<string>,
    country: Option<string>)

  /** A row of `staging_orders`, with the REQUIRED columns not optional. */
  datatype StagedOrder = StagedOrder(
    orderId: string,
    customerId: string,
    orderTimestamp: int,
    items: seq<Item>,
    totalAmount: int,
    paymentStatus: Option<string>,
    shippingAddress: Option<Address>)

  /** The filter `DATE(order_timestamp) = CURRENT_DATE()` with `today` a day number. */
  predicate InWindow(o: StagedOrder, today: int) {
    DateOf(o.orderTimestamp) == today
  }

  /** `quantity * unit_price`, NULL when either operand is NULL. */
  function LineTotal(quantity: Option<int>, unitPrice: Option<int>): (r: Option<int>)
    ensures r.Some? <==> quantity.Some? && unitPrice.Some?
    ensures r.Some? ==> r.value == quantity.value * unitPrice.value
  {
    if quantity.Some? && unitPrice.Some? then Some(quantity.value * unitPrice.value) else None
  }

  /** `o.shipping_address.state`, NULL when the address itself is NULL. */
  function StateOf(o: StagedOrder): (r: Option<string>)
    ensures o.shippingAddress.None? ==> r.None?
    ensures o.shippingAddress.Some? ==> r == o.shippingAddress.value.state
  {
    match o.shippingAddress
    case None => None
    case Some(a) => a.state
  }

  /** `o.shipping_address.city`, NULL when the address itself is NULL. */
  function CityOf(o: StagedOrder): (r: Option<string>)
    ensures o.shippingAddress.None? ==> r.None?
    ensures o.shippingAddress.Some? ==> r == o.shippingAddress.value.city
  {
    match o.shippingAddress
    case None => None
    case Some(a) => a.city
  }

  /** `o.shipping_address.country`, NULL when the address itself is NULL. */
  function CountryOf(o: StagedOrder): (r: Option<string>)
    ensures o.shippingAddress.None? ==> r.None?
    ensures o.shippingAddress.Some? ==> r == o.shippingAddress.value.country
  {
    match o.shippingAddress
    case None => None
    case Some(a) => a.country
  }
}
