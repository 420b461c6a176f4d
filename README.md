# order_processing_incremental, modelled in Dafny

The `order_processing_incremental` Airflow DAG runs every fifteen minutes. It
waits for order files under `landing/orders/` in the `e_comm_de` bucket,
appends them to `staging_orders`, then runs two data-quality checks on the
day's staged rows. The first check fails the run when an order id occurs
twice. The second writes a warning row to `data_quality_checks` for each
order whose line items do not add up to its recorded total. When the
duplicate check holds, the DAG inserts the day's new orders into
`fact_orders`, one row per line item, enriched from `dim_customers` and
`dim_products`. It then recomputes the day's hourly aggregates in
`agg_hourly_metrics` with a MERGE and renames the landed `.json` files into
`archive/<timestamp>/`.

The model has seven modules:

- `Tables`: the staged row type, SQL NULL as `Option`, and the timestamp
  arithmetic (`DATE`, `TIMESTAMP_TRUNC(.., HOUR)`, `EXTRACT(HOUR ..)`).
  Amounts are integer cents and timestamps are integer seconds, UTC.
- `QualityChecks`: the duplicate-order check and the amount-mismatch INSERT.
- `FactMerge`: the fact-table SELECT, with its joins and region CASE, and the
  NOT EXISTS guard.
- `HourlyAggregate`: the USING relation and the MERGE.
- `Archive`: object names, the sensor condition and the archive renaming.
- `Dag`: the task graph and Airflow's default trigger rule.
- `OrderPipeline`: a `Pipeline` class. Its fields are the tables and the
  bucket, and its methods are the tasks, each changing only what it writes.
  `Run` is one DAG run.

Values the warehouse or the clock supplies are parameters:

- A `Clock` holds one instant per SQL statement: the duplicate check, the
  mismatch INSERT, the fact INSERT and the MERGE. A statement's
  `CURRENT_TIMESTAMP()` is its instant. Its `CURRENT_DATE()` is the date of
  that instant. The statements of one run may therefore see different days
  (`OrderPipeline.DateRollsBetweenStatements`).
- Inside `QualityChecks`, `FactMerge` and `HourlyAggregate`, a statement's
  day is the parameter `today` and its instant is `now`.
- `uuid(k)` is the k-th `GENERATE_UUID()` value.
- `stamp` is the `strftime` text of the archive time.
- The load job's verdict is a `Batch`: the parsed rows, or a rejection.

Two consequences of the code are easy to miss:

- The mismatch subquery (order_processing_incremental.py:114) sums over
  `UNNEST(items)`. For an order with no items that SUM is NULL, not 0. The
  comparison at line 118 is then NULL, so no finding is written
  (`QualityChecks.NoLineTotalNeverFlagged`).
- The archiver (line 220) renames the `.json` objects that its own listing
  finds when it runs. These need not be the files the load read.

The statements map to functions as follows:

- The sensor condition is `Archive.SensorFires`.
- The duplicate check is `QualityChecks.DuplicateCheckPasses`.
- The rows the mismatch INSERT selects are `QualityChecks.Mismatches`.
- One fact row is `FactMerge.FactRowOf`, and the fact INSERT is `FactMerge.NewFactRows`.
- The USING relation is `HourlyAggregate.HourlySource`, and the MERGE is `HourlyAggregate.MergeHourly`.
- The archive name is `Archive.ReplaceLanding`, through `Archive.ArchiveName`.
- The bucket after the archiver is `Archive.Archived`.

The rows below are about these functions.

## Model

| member | source | states |
|---|---|---|
| Tables.TruncHour | order_processing_incremental.py:185 | the truncated hour is the last hour boundary at or before the timestamp |
| Tables.HourOfDay | order_processing_incremental.py:142 | the extracted hour lies in 0..23 |
| Tables.TruncHourSameDay | order_processing_incremental.py:185-191 | truncating to the hour keeps the date, and lands on the date's start plus the extracted hour |
| Tables.LineTotal | order_processing_incremental.py:148 | `quantity * unit_price` is non-NULL exactly when both operands are, and is then their product |
| Tables.StateOf | order_processing_incremental.py:152 | a NULL shipping address gives a NULL state, and a present one gives its `state` |
| Tables.CityOf | order_processing_incremental.py:151 | a NULL shipping address gives a NULL city, and a present one gives its `city` |
| Tables.CountryOf | order_processing_incremental.py:153 | a NULL shipping address gives a NULL country, and a present one gives its `country` |
| QualityChecks.CountPositive | order_processing_incremental.py:84-88 | an id's count among the day's rows is positive exactly when a staged row of the day carries it |
| QualityChecks.CountAboveOne | order_processing_incremental.py:84-88 | an id's count exceeds one exactly when two different positions of the day's rows carry it |
| QualityChecks.DuplicateCheckPassesIff | order_processing_incremental.py:79-93 | the check passes exactly when no two staged rows of the day share an order id |
| QualityChecks.CountInWindowAppend | order_processing_incremental.py:84-87 | the per-id count over two parts of staging is the sum of the parts' counts |
| QualityChecks.OtherDaysIgnored | order_processing_incremental.py:86 | a staged row of another day does not affect the check's verdict |
| QualityChecks.ItemsTotal | order_processing_incremental.py:114 | the subquery total is NULL exactly when no item has both a quantity and a price |
| QualityChecks.ItemsTotalAppend | order_processing_incremental.py:114 | the subquery total of two parts of the item list combines as SQL SUM does |
| QualityChecks.ItemsTotalAddsItem | order_processing_incremental.py:114 | with no NULL operand, adding an item adds its line total |
| QualityChecks.MismatchesAppend | order_processing_incremental.py:110-118 | the selected rows of two parts of staging are those of each part, in order |
| QualityChecks.MismatchesPerRow | order_processing_incremental.py:110-118 | each staged row contributes one selected row when it is of the day and off by more than a cent, and none otherwise |
| QualityChecks.MismatchMembership | order_processing_incremental.py:110-118 | a row is selected exactly when a staged row of the day has a non-NULL total more than a cent away from its recorded total |
| QualityChecks.NoLineTotalNeverFlagged | order_processing_incremental.py:114-118 | an order without any non-NULL line total, including one with no items, is never flagged |
| QualityChecks.MismatchFindings | order_processing_incremental.py:101-109 | one finding per selected row, with type `amount_mismatch`, severity `warning`, the statement's timestamp, the statement's k-th generated id and both amounts |
| QualityChecks.FindingIdsDistinct | order_processing_incremental.py:104 | when the id generator never repeats a value, the findings of one statement have pairwise different ids |
| QualityChecks.FindingIffMismatch | order_processing_incremental.py:101-118 | a finding for an order with given amounts exists exactly when a staged row of the day has those amounts and they differ by more than a cent |
| FactMerge.RegionOf | order_processing_incremental.py:154-159 | each region is chosen exactly for its three states, and a NULL or other state gives `Other` |
| FactMerge.TierOf | order_processing_incremental.py:139-162 | the customer's tier when the customer is known with a tier, `bronze` otherwise |
| FactMerge.ProductFor | order_processing_incremental.py:163 | a product matches exactly when the item's product id is non-NULL and present in the dimension |
| FactMerge.FactRowsFor | order_processing_incremental.py:136-163 | one row per item, or one row with NULL item columns for an order without items; every row carries the order's columns and consistent derived columns |
| FactMerge.NewFactRows | order_processing_incremental.py:160-168 | every inserted row is well formed, of the processing day, and has an order id that the table did not hold |
| FactMerge.NewFactRowsAppend | order_processing_incremental.py:160-168 | the rows inserted for two parts of staging are those of each part, in order, both judged against the table before the statement |
| FactMerge.NewFactRowsPerRow | order_processing_incremental.py:136-168 | each staged row contributes all of its fact rows, one per item, when it is of the day and its id is new, and nothing otherwise |
| FactMerge.FactIdsAppend | order_processing_incremental.py:132 | the ids of an appended table are the ids of both parts |
| FactMerge.WindowIdsCons | order_processing_incremental.py:164 | the day's staged ids split into the first row's id and the rest |
| FactMerge.NewFactRowIds | order_processing_incremental.py:160-168 | the inserted ids are exactly the day's staged ids absent from the table before |
| FactMerge.NothingNewWhenPresent | order_processing_incremental.py:165-168 | when the table holds every staged id of the day, nothing is inserted |
| FactMerge.FactMergeIdempotent | order_processing_incremental.py:127-174 | a second run over the same staging and day inserts nothing |
| FactMerge.StagedCopiesBothInserted | order_processing_incremental.py:165-168 | two staged copies of a new order are both inserted, since NOT EXISTS sees only the table before the statement |
| HourlyAggregate.HourRows | order_processing_incremental.py:190-192 | a group holds exactly the fact rows of the day truncating to its hour |
| HourlyAggregate.HourRowsCount | order_processing_incremental.py:190-192 | a fact row occurs in its hour's group as often as in the table, and in no other group |
| HourlyAggregate.MetricsOf | order_processing_incremental.py:184-189 | a group's order and customer counts are between 1 and its row count, and its average times its row count is its revenue |
| HourlyAggregate.OrderIdsAtMostRows | order_processing_incremental.py:186-189 | distinct counts never exceed the number of rows |
| HourlyAggregate.SourceAt | order_processing_incremental.py:183-193 | every hour of S is hour-aligned, of the day, and aggregates its non-empty group |
| HourlyAggregate.CustomersAtMostOrders | order_processing_incremental.py:186-189 | when an order id has one customer, a group has no more distinct customers than distinct orders |
| HourlyAggregate.RevenueOfEqualTotals | order_processing_incremental.py:187 | rows with one total sum to the row count times that total |
| HourlyAggregate.OneOrderGroup | order_processing_incremental.py:184-189 | a group of one order's rows counts one order, and sums its total once per row |
| HourlyAggregate.OneOrderHour | order_processing_incremental.py:184-193 | an hour holding only one order's line items reports one order, a revenue of the total times its rows, and the total as average |
| HourlyAggregate.MergeOneMore | order_processing_incremental.py:194-204 | merging one more row of S sets that hour to its stored row |
| HourlyAggregate.MergeReplaces | order_processing_incremental.py:194-204 | after the MERGE each hour of S holds exactly S's metrics and the new `updated_at`; other hours are unchanged |
| HourlyAggregate.MergeKeepsKeys | order_processing_incremental.py:182-204 | the merged table stays keyed by hour and hour-aligned |
| HourlyAggregate.MergeRerun | order_processing_incremental.py:182-204 | re-merging the same S changes no metric, only the `updated_at` of S's hours |
| Archive.ReplaceLandingLeading | order_processing_incremental.py:225 | a name starting with `landing/` is renamed to one starting with the replacement |
| Archive.ArchiveNameLeavesPrefix | order_processing_incremental.py:220-225 | every listed name is renamed under `archive/` and so leaves the watched prefix |
| Archive.ReplaceLandingSkips | order_processing_incremental.py:225 | text without `l` holds no `landing/` and is kept |
| Archive.ReplaceLandingAfterLanding | order_processing_incremental.py:225 | a leading `landing/` is replaced and the rest is scanned on |
| Archive.ArchivePrefixHasNoL | order_processing_incremental.py:221-225 | an archive prefix built from a stamp without `l` has no `l` |
| Archive.SecondLandingCollides | order_processing_incremental.py:225 | a second `landing/` and a literal archive prefix in its place are renamed alike |
| Archive.ArchiveNamesCanCollide | order_processing_incremental.py:223-226 | two different listed `.json` names can receive the same archive name |
| Archive.RenameOneMore | order_processing_incremental.py:226 | one more rename removes the old name and adds the archive name |
| Archive.ArchivedLeavesNoJson | order_processing_incremental.py:220-226 | after archiving, no `.json` name remains under the watched prefix |
| Archive.ArchivedMovesEach | order_processing_incremental.py:220-226 | every listed `.json` name is moved to its archive name, and every other object stays |
| Archive.ArchiveAgainMovesNothing | order_processing_incremental.py:220-226 | a second archiver run finds nothing to move |
| Dag.Upstream | order_processing_incremental.py:236-237 | every edge goes to a deeper task, so the graph has no cycle |
| Dag.CompletionConditions | order_processing_incremental.py:236-237 | the exact condition under which each of the seven tasks completes |
| Dag.DuplicateFailureStopsDownstream | order_processing_incremental.py:236-237 | a failed duplicate check stops the fact, aggregate and archive tasks, while the mismatch check still completes |
| Dag.ScheduleHoldsEveryTask | order_processing_incremental.py:236-237 | the schedule lists every task |
| Dag.ScheduleInDependencyOrder | order_processing_incremental.py:236-237 | the schedule, and the prefix that runs when the duplicate check fails, put every task after its upstream tasks |
| Dag.CompletedTasks | order_processing_incremental.py:236-237 | the completed tasks are exactly those that complete, in dependency order |
| OrderPipeline.DateRollsBetweenStatements | order_processing_incremental.py:86-164 | when the duplicate check sees day d and the fact INSERT sees day d+1, two staged copies of a day-d+1 order pass the check and are both inserted |
| OrderPipeline.LateStatementSkipsOrder | order_processing_incremental.py:164 | a staged order of day d contributes no fact row to a fact INSERT that sees day d+1 |
| OrderPipeline.Pipeline.constructor | order_processing_incremental.py:11-14 | the model's own starting state: empty tables, the given dimension tables and the given bucket contents (the source names the dataset and bucket at these lines, and it never creates tables) |
| OrderPipeline.Pipeline.LoadToStaging | order_processing_incremental.py:48-54 | an accepted batch is appended after the staged rows, which stay; a rejected batch changes nothing and fails |
| OrderPipeline.Pipeline.CheckDuplicateOrders | order_processing_incremental.py:79-93 | the task succeeds exactly when no two staged rows of the day share an order id |
| OrderPipeline.Pipeline.CheckAmountMismatch | order_processing_incremental.py:96-124 | the findings of the day's staged rows are appended to the findings table |
| OrderPipeline.Pipeline.TransformToFact | order_processing_incremental.py:127-174 | the new fact rows are appended, the table's ids become the old ids plus the day's staged ids, and every row stays well formed |
| OrderPipeline.Pipeline.UpdateHourlyAggregations | order_processing_incremental.py:177-210 | the row-by-row MERGE loop produces the merged table, which stays keyed by hour and hour-aligned |
| OrderPipeline.Pipeline.ArchiveFiles | order_processing_incremental.py:213-227 | the rename loop over the listing leaves the bucket in its archived state |
| OrderPipeline.Pipeline.RunAfterLoad | order_processing_incremental.py:79-237 | both checks run on the staged rows, each on the day of its own clock reading; the fact, aggregate and archive steps run, in order, only when the duplicate check holds |
| OrderPipeline.Pipeline.Run | order_processing_incremental.py:36-237 | the completed tasks follow the trigger rule, and each table changes exactly when its task completes |

## Left out

- Airflow configuration (owner, retries, e-mail, the fifteen-minute schedule, catch-up): the model starts at one run. A task's outcome is its outcome after retries.
- The sensor's polling interval and ten-minute timeout: the sensor is modelled as whether some name has the watched prefix when the run starts.
- JSON parsing and schema validation in the load job: they are foreign code. Their verdict is the `Batch` parameter. Which objects the `*.json` wildcard selects is not modelled.
- BigQuery and Cloud Storage clients, and job failures other than the check verdicts and the load rejection: these are external services.
- The archiver's `print` line: output only.
- Object contents: the bucket is a set of names.
- `rename_blob` onto an existing name: the replaced object's contents are lost in the source, but the model keeps only names.
- Floating-point amounts and prices: money is integer cents. `ROUND(.., 2)` is therefore the identity, and the tolerance `> 0.01` becomes `> 1` cent. Prices with fractions of a cent are not modelled.
- `AVG` is an exact rational, not a floating-point value.
- The text of `issue_description`: the model keeps the two amounts that CONCAT renders, not their float-to-string formatting.
- Duplicate keys in `dim_customers` or `dim_products`, which would multiply fact rows in SQL: the dimensions are maps.
- Row order in the warehouse tables: tables are sequences in insertion order, or a map for `agg_hourly_metrics`.
- Concurrent DAG runs, and files arriving between the load and the archiver.
- The order of the four clock readings: they are not required to increase in task order. Any readings are allowed, so the real runs are among the described ones, and so are some impossible ones.
- The data generator scripts: they are not part of the DAG.
- Time zones: `DATE` and `EXTRACT(HOUR ..)` are taken in UTC.
