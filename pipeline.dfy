/** The DAG's tasks acting on the warehouse and the bucket. The tables and the
    bucket are fields of one `Pipeline` object; each task is a method that
    changes the table it writes and nothing else, and `Run` executes one DAG
    run in schedule order, skipping what the trigger rule skips. */
module OrderPipeline {
  import opened Tables
  import opened QualityChecks
  import opened FactMerge
  import opened HourlyAggregate
  import opened Archive
  import Dag

  /** What the load job makes of the landed `.json` files: the parsed rows, or a rejection
      (a file that does not parse or does not match the staging schema fails the job). */
  datatype Batch = Parsed(rows: seq<StagedOrder>) | Rejected

  /** The clock readings of one run. A BigQuery statement evaluates `CURRENT_TIMESTAMP()` and
      `CURRENT_DATE()` once, when it starts, so each statement has its own instant and its day is
      the date of that instant. The jobs run one after another, so a run can see two days. */
  datatype Clock = Clock(duplicateAt: int, mismatchAt: int, factAt: int, hourlyAt: int)

  /** Two staged copies of an order of day `d + 1`, in a run whose duplicate check still sees day
      `d` and whose fact insert sees day `d + 1`: the check passes and the insert adds the order's
      rows twice. */
  lemma DateRollsBetweenStatements(o: StagedOrder, facts: seq<FactRow>, d: int,
                                   customers: map<string, CustomerDim>, products: map<string, ProductDim>)
    requires DateOf(o.orderTimestamp) == d + 1 && o.orderId !in FactIds(facts)
    ensures DuplicateCheckPasses([o, o], d)
    ensures NewFactRows([o, o], facts, d + 1, customers, products) ==
            FactRowsFor(o, customers, products) + FactRowsFor(o, customers, products)
  {
    OtherDaysIgnored([], o, [o], d);
    OtherDaysIgnored([], o, [], d);
    assert [] + [o] + [o] == [o, o] && [] + [o] + [] == [o];
    assert DuplicateIds([], d) == {};
    StagedCopiesBothInserted(o, facts, d + 1, customers, products);
  }

  /** An order of day `d` loaded by a run whose fact insert already sees day `d + 1` is not
      inserted, although the archiver of that run still moves its file. */
  lemma LateStatementSkipsOrder(a: seq<StagedOrder>, o: StagedOrder, b: seq<StagedOrder>, facts: seq<FactRow>, d: int,
                                customers: map<string, CustomerDim>, products: map<string, ProductDim>)
    requires DateOf(o.orderTimestamp) == d
    ensures NewFactRows(a + [o] + b, facts, d + 1, customers, products) ==
            NewFactRows(a + b, facts, d + 1, customers, products)
  {
    NewFactRowsPerRow(a, o, b, facts, d + 1, customers, products);
    NewFactRowsAppend(a, b, facts, d + 1, customers, products);
  }

  class Pipeline {
    /** `staging_orders` */
    var staging: seq<StagedOrder>
    /** `data_quality_checks` */
    var qualityChecks: seq<Finding>
    /** `fact_orders` */
    var facts: seq<FactRow>
    /** `agg_hourly_metrics`, keyed by `metric_hour` */
    var hourly: map<int, HourlyMetric>
    /** The object names of the `e_comm_de` bucket. */
    var bucket: set<string>
    /** `dim_customers` and `dim_products`, read but never written. */
    const customers: map<string, CustomerDim>
    const products: map<string, ProductDim>

    /** Fact rows carry their derived columns, and the aggregate table holds one row per
        hour-aligned `metric_hour`. */
    ghost predicate Valid()
      reads this
    {
      && (forall f :: f in facts ==> WellFormed(f))
      && KeyedByHour(hourly)
      && (forall h :: h in hourly ==> h % SECONDS_PER_HOUR == 0)
    }

    constructor (customers: map<string, CustomerDim>, products: map<string, ProductDim>, bucket: set<string>)
      ensures Valid()
      ensures staging == [] && qualityChecks == [] && facts == [] && hourly == map[]
      ensures this.bucket == bucket && this.customers == customers && this.products == products
    {
      this.staging := [];
      this.qualityChecks := [];
      this.facts := [];
      this.hourly := map[];
      this.bucket := bucket;
      this.customers := customers;
      this.products := products;
    }

    /** `load_to_staging` with WRITE_APPEND: an accepted batch is appended after the rows already
        staged, which stay as they were; a rejected batch fails the task and appends nothing. */
    method LoadToStaging(batch: Batch) returns (ok: bool)
      requires Valid()
      modifies this`staging
      ensures Valid()
      ensures ok == batch.Parsed?
      ensures staging == if ok then old(staging) + batch.rows else old(staging)
      ensures old(staging) <= staging
    {
      if batch.Rejected? {
        return false;
      }
      staging := staging + batch.rows;
      ok := true;
    }

    /** `check_duplicate_orders`: the task succeeds exactly when no order id occurs twice among
        the staged rows of the processing day. */
    method CheckDuplicateOrders(today: int) returns (passed: bool)
      ensures passed == DuplicateCheckPasses(staging, today)
      ensures passed <==> UniqueInWindow(staging, today)
    {
      DuplicateCheckPassesIff(staging, today);
      passed := |DuplicateIds(staging, today)| == 0;
    }

    /** `check_amount_mismatch`: one finding per staged row of the day whose recomputed total
        differs from its recorded total by more than a cent, appended to the findings table. */
    method CheckAmountMismatch(today: int, now: int, uuid: nat -> string)
      requires Valid()
      modifies this`qualityChecks
      ensures Valid()
      ensures qualityChecks == old(qualityChecks) + MismatchFindings(staging, today, now, uuid)
    {
      qualityChecks := qualityChecks + MismatchFindings(staging, today, now, uuid);
    }

    /** `transform_to_fact_orders`: the rows of the day's staged orders whose id the fact table
        does not hold yet are appended; the table keeps its derived columns consistent. */
    method TransformToFact(today: int)
      requires Valid()
      modifies this`facts
      ensures Valid()
      ensures facts == old(facts) + NewFactRows(staging, old(facts), today, customers, products)
      ensures FactIds(facts) == FactIds(old(facts)) + WindowIds(staging, today)
    {
      var added := NewFactRows(staging, facts, today, customers, products);
      NewFactRowIds(staging, facts, today, customers, products);
      FactIdsAppend(facts, added);
      facts := facts + added;
    }

    /** `update_hourly_aggregations`: the MERGE visits the rows of S one by one; a matched hour has
        its metric columns and `updated_at` set, an unmatched hour is inserted. */
    method UpdateHourlyAggregations(today: int, now: int)
      requires Valid()
      modifies this`hourly
      ensures Valid()
      ensures hourly == MergeHourly(old(hourly), HourlySource(facts, today), now)
    {
      var src := HourlySource(facts, today);
      MergeKeepsKeys(hourly, facts, today, now);
      var pending := src.Keys;
      while pending != {}
        invariant pending <= src.Keys
        invariant hourly == MergeHourly(old(hourly), src - pending, now)
        decreases pending
      {
        var h :| h in pending;
        var m := src[h];
        MergeOneMore(old(hourly), src, pending, h, now);
        if h in hourly {
          assert hourly[h] == old(hourly)[h];
          hourly := hourly[h := hourly[h].(totalOrders := m.totalOrders, totalRevenue := m.totalRevenue,
                                           avgOrderValue := m.avgOrderValue, uniqueCustomers := m.uniqueCustomers,
                                           updatedAt := now)];
        } else {
          hourly := hourly[h := HourlyMetric(h, m.totalOrders, m.totalRevenue, m.avgOrderValue, m.uniqueCustomers, now)];
        }
        pending := pending - {h};
      }
      assert src - {} == src;
    }

    /** `archive_files`: the names under the watched prefix are listed once, and each `.json`
        name among them is renamed to its archive name. */
    method ArchiveFiles(stamp: string)
      modifies this`bucket
      ensures bucket == Archived(old(bucket), stamp)
    {
      var blobs := Listed(bucket);
      var pending := blobs;
      ghost var done: set<string> := {};
      while pending != {}
        invariant pending <= blobs
        invariant done == set n | n in blobs - pending && EndsWith(n, JSON_SUFFIX)
        invariant bucket == Renamed(old(bucket), done, stamp)
        decreases pending
      {
        var blob :| blob in pending;
        if EndsWith(blob, JSON_SUFFIX) {
          RenameOneMore(old(bucket), done, blob, stamp);
          bucket := bucket - {blob} + {ArchiveName(blob, stamp)};
          done := done + {blob};
        }
        pending := pending - {blob};
      }
      assert done == ToArchive(old(bucket));
    }

    /** The tasks after a successful load: both checks start from the staged rows; only when the
        duplicate check holds do the fact transform, the aggregate update and the archiver run,
        one after the other. Each statement reads the clock at its own start. */
    method RunAfterLoad(clock: Clock, uuid: nat -> string, stamp: string) returns (passed: bool)
      requires Valid()
      modifies this`qualityChecks, this`facts, this`hourly, this`bucket
      ensures Valid()
      ensures passed == DuplicateCheckPasses(staging, DateOf(clock.duplicateAt))
      ensures qualityChecks ==
              old(qualityChecks) + MismatchFindings(staging, DateOf(clock.mismatchAt), clock.mismatchAt, uuid)
      ensures facts == if passed
                       then old(facts) + NewFactRows(staging, old(facts), DateOf(clock.factAt), customers, products)
                       else old(facts)
      ensures hourly == if passed
                        then MergeHourly(old(hourly), HourlySource(facts, DateOf(clock.hourlyAt)), clock.hourlyAt)
                        else old(hourly)
      ensures bucket == if passed then Archived(old(bucket), stamp) else old(bucket)
    {
      passed := CheckDuplicateOrders(DateOf(clock.duplicateAt));
      CheckAmountMismatch(DateOf(clock.mismatchAt), clock.mismatchAt, uuid);
      if passed {
        TransformToFact(DateOf(clock.factAt));
        UpdateHourlyAggregations(DateOf(clock.hourlyAt), clock.hourlyAt);
        ArchiveFiles(stamp);
      }
    }

    /** One DAG run. Each task runs only when its upstream tasks succeeded: without an object the
        run stops at the sensor, a rejected batch stops it after the load, and a failed duplicate
        check leaves the fact table, the aggregates and the bucket as they were while the
        amount-mismatch findings are still written. `completed` lists the tasks that succeeded. */
    method Run(batch: Batch, clock: Clock, uuid: nat -> string, stamp: string) returns (completed: seq<Dag.Task>)
      requires Valid()
      modifies this`staging, this`qualityChecks, this`facts, this`hourly, this`bucket
      ensures Valid()
      ensures var oc := Dag.Outcomes(SensorFires(old(bucket)), batch.Parsed?,
                                     DuplicateCheckPasses(staging, DateOf(clock.duplicateAt)));
        && completed == Dag.CompletedTasks(oc)
        && staging == (if Dag.Completes(Dag.LoadToStaging, oc) then old(staging) + batch.rows else old(staging))
        && qualityChecks == (if Dag.Completes(Dag.CheckAmountMismatch, oc)
                             then old(qualityChecks) +
                                  MismatchFindings(staging, DateOf(clock.mismatchAt), clock.mismatchAt, uuid)
                             else old(qualityChecks))
        && facts == (if Dag.Completes(Dag.TransformToFact, oc)
                     then old(facts) + NewFactRows(staging, old(facts), DateOf(clock.factAt), customers, products)
                     else old(facts))
        && hourly == (if Dag.Completes(Dag.UpdateHourlyAgg, oc)
                      then MergeHourly(old(hourly), HourlySource(facts, DateOf(clock.hourlyAt)), clock.hourlyAt)
                      else old(hourly))
        && bucket == (if Dag.Completes(Dag.ArchiveFiles, oc) then Archived(old(bucket), stamp) else old(bucket))
    {
      var found := SensorFires(bucket);
      if !found {
        Dag.CompletionConditions(Dag.Outcomes(false, batch.Parsed?, DuplicateCheckPasses(staging, DateOf(clock.duplicateAt))));
        return [];
      }
      var loaded := LoadToStaging(batch);
      if !loaded {
        Dag.CompletionConditions(Dag.Outcomes(true, false, DuplicateCheckPasses(staging, DateOf(clock.duplicateAt))));
        return [Dag.CheckNewFiles];
      }
      var passed := RunAfterLoad(clock, uuid, stamp);
      Dag.CompletionConditions(Dag.Outcomes(true, true, passed));
      if passed {
        completed := Dag.Schedule;
      } else {
        completed := [Dag.CheckNewFiles, Dag.LoadToStaging, Dag.CheckAmountMismatch];
      }
    }
  }
}
