/** The `update_hourly_aggregations` statement: the USING relation that groups
    the day's fact rows by hour, and the MERGE that writes it into
    `agg_hourly_metrics` by `metric_hour` ("recompute-and-replace"). */
module HourlyAggregate {
  import opened Tables
  import opened FactMerge

  /** The metric columns of a row of the USING relation. */
  datatype Metrics = Metrics(totalOrders: nat, totalRevenue: int, avgOrderValue: real, uniqueCustomers: nat)

  /** A row of `agg_hourly_metrics`. */
  datatype HourlyMetric = HourlyMetric(
    metricHour: int,
    totalOrders: nat,
    totalRevenue: int,
    avgOrderValue: real,
    uniqueCustomers: nat,
    updatedAt: int)

  /** The fact rows of the group of hour `h`: of day `today` and truncating to `h`. */
  function HourRows(facts: seq<FactRow>, today: int, h: int): (r: seq<FactRow>)
    ensures forall f :: f in r <==> f in facts && DateOf(f.orderTimestamp) == today && TruncHour(f.orderTimestamp) == h
    ensures |r| <= |facts|
  {
    if facts == [] then []
    else
      (if DateOf(facts[0].orderTimestamp) == today && TruncHour(facts[0].orderTimestamp) == h then [facts[0]] else []) +
      HourRows(facts[1..], today, h)
  }

  /** GROUP BY keeps every fact row of the hour as often as the table holds it: a row occurs in
      its group exactly as many times as in the table, and in no other group. */
  lemma {:induction false} HourRowsCount(facts: seq<FactRow>, today: int, h: int)
    ensures forall f :: multiset(HourRows(facts, today, h))[f] ==
              (if DateOf(f.orderTimestamp) == today && TruncHour(f.orderTimestamp) == h then multiset(facts)[f] else 0)
  {
    if facts != [] {
      HourRowsCount(facts[1..], today, h);
      assert facts == [facts[0]] + facts[1..];
    }
  }

  /** SUM(total_amount) over fact rows, one term per row. */
  function Revenue(rows: seq<FactRow>): int {
    if rows == [] then 0 else rows[0].totalAmount + Revenue(rows[1..])
  }

  function OrderIds(rows: seq<FactRow>): set<string> {
    set f | f in rows :: f.orderId
  }

  function CustomerIds(rows: seq<FactRow>): set<string> {
    set f | f in rows :: f.customerId
  }

  /** The aggregates of one group: COUNT(DISTINCT order_id), SUM(total_amount),
      AVG(total_amount) and COUNT(DISTINCT customer_id). */
  function MetricsOf(rows: seq<FactRow>): (m: Metrics)
    requires rows != []
    ensures 1 <= m.totalOrders <= |rows| && 1 <= m.uniqueCustomers <= |rows|
    ensures m.avgOrderValue * |rows| as real == m.totalRevenue as real
  {
    assert rows[0].orderId in OrderIds(rows) && rows[0].customerId in CustomerIds(rows);
    OrderIdsAtMostRows(rows);
    AverageTimesCount(Revenue(rows), |rows|);
    Metrics(|OrderIds(rows)|, Revenue(rows), Revenue(rows) as real / |rows| as real, |CustomerIds(rows)|)
  }

  /** The values of `metric_hour` in the USING relation. */
  function SourceHours(facts: seq<FactRow>, today: int): set<int> {
    set f | f in facts && DateOf(f.orderTimestamp) == today :: TruncHour(f.orderTimestamp)
  }

  /** The USING relation S, keyed by `metric_hour` (GROUP BY makes the key unique). */
  function HourlySource(facts: seq<FactRow>, today: int): map<int, Metrics> {
    map h | h in SourceHours(facts, today) ::
      assert exists f :: f in facts && DateOf(f.orderTimestamp) == today && TruncHour(f.orderTimestamp) == h;
      var f :| f in facts && DateOf(f.orderTimestamp) == today && TruncHour(f.orderTimestamp) == h;
      assert f in HourRows(facts, today, h);
      MetricsOf(HourRows(facts, today, h))
  }

  lemma {:induction false} OrderIdsAtMostRows(rows: seq<FactRow>)
    ensures |OrderIds(rows)| <= |rows|
    ensures |CustomerIds(rows)| <= |rows|
  {
    if rows != [] {
      OrderIdsAtMostRows(rows[1..]);
      assert OrderIds(rows) == {rows[0].orderId} + OrderIds(rows[1..]);
      assert CustomerIds(rows) == {rows[0].customerId} + CustomerIds(rows[1..]);
    }
  }

  /** A key of S is the start of an hour of the processing day, and its row aggregates the
      (non-empty) group of that hour. */
  lemma SourceAt(facts: seq<FactRow>, today: int, h: int)
    requires h in HourlySource(facts, today)
    ensures h % SECONDS_PER_HOUR == 0 && DateOf(h) == today
    ensures HourRows(facts, today, h) != []
    ensures HourlySource(facts, today)[h] == MetricsOf(HourRows(facts, today, h))
  {
    var f :| f in facts && DateOf(f.orderTimestamp) == today && TruncHour(f.orderTimestamp) == h;
    TruncHourSameDay(f.orderTimestamp);
    assert f in HourRows(facts, today, h);
  }

  lemma AverageTimesCount(total: int, n: int)
    requires n > 0
    ensures (total as real / n as real) * n as real == total as real
  {
  }

  /** When every row of a group carries one order id with one customer, the group counts no more
      distinct customers than distinct orders. */
  lemma {:induction false} CustomersAtMostOrders(rows: seq<FactRow>)
    requires forall f, g :: f in rows && g in rows && f.orderId == g.orderId ==> f.customerId == g.customerId
    ensures |CustomerIds(rows)| <= |OrderIds(rows)|
  {
    if rows != [] {
      var t := rows[1..];
      CustomersAtMostOrders(t);
      assert OrderIds(rows) == {rows[0].orderId} + OrderIds(t);
      assert CustomerIds(rows) == {rows[0].customerId} + CustomerIds(t);
      if rows[0].orderId in OrderIds(t) {
        var g :| g in t && g.orderId == rows[0].orderId;
        assert rows[0].customerId in CustomerIds(t);
      }
    }
  }

  lemma {:induction false} RevenueOfEqualTotals(rows: seq<FactRow>, total: int)
    requires forall f :: f in rows ==> f.totalAmount == total
    ensures Revenue(rows) == |rows| * total
  {
    if rows != [] {
      RevenueOfEqualTotals(rows[1..], total);
    }
  }

  lemma AverageOfEqualTotals(n: int, total: int)
    requires n > 0
    ensures (n * total) as real / n as real == total as real
  {
  }

  lemma OneOrderGroup(rows: seq<FactRow>, id: string, total: int)
    requires rows != []
    requires forall f :: f in rows ==> f.orderId == id && f.totalAmount == total
    ensures MetricsOf(rows) == Metrics(1, |rows| * total, total as real, |CustomerIds(rows)|)
  {
    assert rows[0] in rows;
    assert OrderIds(rows) == {id};
    RevenueOfEqualTotals(rows, total);
    AverageOfEqualTotals(|rows|, total);
  }

  /** `total_revenue` sums the order total once per fact row: an hour holding only the line items
      of one order counts one order, but its revenue is the order total times the number of its
      rows, and its average is the order total. */
  lemma OneOrderHour(facts: seq<FactRow>, today: int, h: int, id: string, total: int)
    requires h in HourlySource(facts, today)
    requires forall f :: f in HourRows(facts, today, h) ==> f.orderId == id && f.totalAmount == total
    ensures var m := HourlySource(facts, today)[h];
            && m.totalOrders == 1
            && m.totalRevenue == |HourRows(facts, today, h)| * total
            && m.avgOrderValue == total as real
  {
    SourceAt(facts, today, h);
    OneOrderGroup(HourRows(facts, today, h), id, total);
  }

  /** The stored row for a source row: the UPDATE SET and INSERT VALUES lists agree. */
  function Stored(h: int, m: Metrics, now: int): HourlyMetric {
    HourlyMetric(h, m.totalOrders, m.totalRevenue, m.avgOrderValue, m.uniqueCustomers, now)
  }

  /** The metric columns of a stored row. */
  function MetricsIn(row: HourlyMetric): Metrics {
    Metrics(row.totalOrders, row.totalRevenue, row.avgOrderValue, row.uniqueCustomers)
  }

  /** The table after the MERGE: hours of S hold S's values (matched or inserted), the other
      hours keep their rows. */
  function MergeHourly(target: map<int, HourlyMetric>, src: map<int, Metrics>, now: int): map<int, HourlyMetric> {
    map h | h in target.Keys + src.Keys :: if h in src then Stored(h, src[h], now) else target[h]
  }

  /** Each row of the table is stored under its own `metric_hour`. */
  ghost predicate KeyedByHour(t: map<int, HourlyMetric>) {
    forall h :: h in t ==> t[h].metricHour == h
  }

  /** Recompute-and-replace: after the MERGE each hour of S holds exactly S's metrics, whatever the
      table held before for that hour (nothing is added to an old value), and the other hours are
      untouched. */
  lemma MergeReplaces(target: map<int, HourlyMetric>, src: map<int, Metrics>, now: int, h: int)
    requires h in target.Keys + src.Keys
    ensures var r := MergeHourly(target, src, now);
            && h in r
            && (h in src ==> MetricsIn(r[h]) == src[h] && r[h].updatedAt == now && r[h].metricHour == h)
            && (h !in src ==> r[h] == target[h])
  {
  }

  /** One more row of S merged: the MERGE over `src - (pending - {h})` is the MERGE over
      `src - pending` with hour `h` set to its stored row. */
  lemma MergeOneMore(target: map<int, HourlyMetric>, src: map<int, Metrics>, pending: set<int>, h: int, now: int)
    requires h in pending && pending <= src.Keys
    ensures MergeHourly(target, src - (pending - {h}), now) == MergeHourly(target, src - pending, now)[h := Stored(h, src[h], now)]
  {
    var a, b := src - (pending - {h}), src - pending;
    assert a.Keys == b.Keys + {h};
    assert forall k :: k in a && k != h ==> k in b && a[k] == b[k];
  }

  /** The MERGE keeps the table keyed by hour and keeps its keys hour-aligned when S's are. */
  lemma MergeKeepsKeys(target: map<int, HourlyMetric>, facts: seq<FactRow>, today: int, now: int)
    requires KeyedByHour(target)
    requires forall h :: h in target ==> h % SECONDS_PER_HOUR == 0
    ensures var r := MergeHourly(target, HourlySource(facts, today), now);
            KeyedByHour(r) && forall h :: h in r ==> h % SECONDS_PER_HOUR == 0
  {
    var src := HourlySource(facts, today);
    forall h | h in src ensures h % SECONDS_PER_HOUR == 0 {
      SourceAt(facts, today, h);
    }
  }

  /** Re-running the MERGE over an unchanged fact table leaves every metric as it is; only
      `updated_at` of the hours of S moves to the new time. */
  lemma MergeRerun(target: map<int, HourlyMetric>, src: map<int, Metrics>, first: int, second: int)
    ensures var once := MergeHourly(target, src, first);
            var twice := MergeHourly(once, src, second);
            && twice.Keys == once.Keys
            && (forall h :: h in once ==> MetricsIn(twice[h]) == MetricsIn(once[h]) && twice[h].metricHour == once[h].metricHour)
            && (forall h :: h in src ==> twice[h].updatedAt == second)
            && (forall h :: h in once && h !in src ==> twice[h] == once[h])
  {
  }
}
