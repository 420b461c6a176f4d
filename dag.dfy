/** The DAG's task graph: the seven tasks, the dependency edges declared with
    `>>`, and the scheduler's rule that a task runs only when every task it
    depends on has run and succeeded. */
module Dag {

  datatype Task =
    | CheckNewFiles
    | LoadToStaging
    | CheckDuplicates
    | CheckAmountMismatch
    | TransformToFact
    | UpdateHourlyAgg
    | ArchiveFiles

  /** The position of a task in the chain; every edge goes to a deeper task. */
  function Depth(t: Task): nat {
    match t
    case CheckNewFiles => 0
    case LoadToStaging => 1
    case CheckDuplicates => 2
    case CheckAmountMismatch => 2
    case TransformToFact => 3
    case UpdateHourlyAgg => 4
    case ArchiveFiles => 5
  }

  /** The direct upstream tasks of each task: one fan-out after the load and one join before
      the fact transform. */
  function Upstream(t: Task): (r: set<Task>)
    ensures forall u :: u in r ==> Depth(u) < Depth(t)
  {
    match t
    case CheckNewFiles => {}
    case LoadToStaging => {CheckNewFiles}
    case CheckDuplicates => {LoadToStaging}
    case CheckAmountMismatch => {LoadToStaging}
    case TransformToFact => {CheckDuplicates, CheckAmountMismatch}
    case UpdateHourlyAgg => {TransformToFact}
    case ArchiveFiles => {UpdateHourlyAgg}
  }

  /** What decides the run: whether the sensor found an object, whether the load job accepted the
      files, and whether the duplicate check held. The other tasks never fail in this model. */
  datatype Outcomes = Outcomes(filesFound: bool, loaded: bool, noDuplicates: bool)

  /** Whether a task succeeds once it is started. */
  predicate SucceedsIfRun(t: Task, oc: Outcomes) {
    match t
    case CheckNewFiles => oc.filesFound
    case LoadToStaging => oc.loaded
    case CheckDuplicates => oc.noDuplicates
    case _ => true
  }

  /** A task is started when every upstream task was started and succeeded. */
  predicate Runs(t: Task, oc: Outcomes)
    decreases Depth(t)
  {
    forall u :: u in Upstream(t) ==> Runs(u, oc) && SucceedsIfRun(u, oc)
  }

  predicate Completes(t: Task, oc: Outcomes) {
    Runs(t, oc) && SucceedsIfRun(t, oc)
  }

  /** When each task completes: the sensor needs an object, the load needs the sensor and an
      accepted batch, the amount-mismatch check needs only those two, and the fact transform,
      the aggregate update and the archiver additionally need the duplicate check to hold. */
  lemma CompletionConditions(oc: Outcomes)
    ensures Completes(CheckNewFiles, oc) == oc.filesFound
    ensures Completes(LoadToStaging, oc) == (oc.filesFound && oc.loaded)
    ensures Completes(CheckDuplicates, oc) == (oc.filesFound && oc.loaded && oc.noDuplicates)
    ensures Completes(CheckAmountMismatch, oc) == (oc.filesFound && oc.loaded)
    ensures Completes(TransformToFact, oc) == (oc.filesFound && oc.loaded && oc.noDuplicates)
    ensures Completes(UpdateHourlyAgg, oc) == (oc.filesFound && oc.loaded && oc.noDuplicates)
    ensures Completes(ArchiveFiles, oc) == (oc.filesFound && oc.loaded && oc.noDuplicates)
  {
    assert Runs(CheckNewFiles, oc);
    assert Upstream(LoadToStaging) == {CheckNewFiles};
    assert Upstream(CheckDuplicates) == {LoadToStaging};
    assert Upstream(CheckAmountMismatch) == {LoadToStaging};
    assert Upstream(TransformToFact) == {CheckDuplicates, CheckAmountMismatch};
    assert Upstream(UpdateHourlyAgg) == {TransformToFact};
    assert Upstream(ArchiveFiles) == {UpdateHourlyAgg};
  }

  /** A failed duplicate check stops the fact transform, the aggregate update and the archiver,
      while the amount-mismatch check still runs once the load has succeeded. */
  lemma DuplicateFailureStopsDownstream(oc: Outcomes)
    requires oc.filesFound && oc.loaded && !oc.noDuplicates
    ensures Completes(CheckAmountMismatch, oc)
    ensures !Runs(TransformToFact, oc) && !Runs(UpdateHourlyAgg, oc) && !Runs(ArchiveFiles, oc)
  {
    CompletionConditions(oc);
    assert CheckDuplicates in Upstream(TransformToFact);
    assert TransformToFact in Upstream(UpdateHourlyAgg);
    assert UpdateHourlyAgg in Upstream(ArchiveFiles);
  }

  /** The order the run executes its tasks in: sensor, load, both checks, fact, aggregate, archive. */
  const Schedule: seq<Task> :=
    [CheckNewFiles, LoadToStaging, CheckDuplicates, CheckAmountMismatch, TransformToFact, UpdateHourlyAgg, ArchiveFiles]

  /** Every task of `s` comes after all of its upstream tasks. */
  predicate InDependencyOrder(s: seq<Task>) {
    forall i :: 0 <= i < |s| ==> forall u :: u in Upstream(s[i]) ==> u in s[..i]
  }

  lemma ScheduleHoldsEveryTask(t: Task)
    ensures t in Schedule
  {
    match t
    case CheckNewFiles => assert Schedule[0] == t;
    case LoadToStaging => assert Schedule[1] == t;
    case CheckDuplicates => assert Schedule[2] == t;
    case CheckAmountMismatch => assert Schedule[3] == t;
    case TransformToFact => assert Schedule[4] == t;
    case UpdateHourlyAgg => assert Schedule[5] == t;
    case ArchiveFiles => assert Schedule[6] == t;
  }

  /** The schedule, and the prefix that runs when the duplicate check fails, respect the edges. */
  lemma ScheduleInDependencyOrder()
    ensures InDependencyOrder(Schedule)
    ensures InDependencyOrder([CheckNewFiles, LoadToStaging, CheckAmountMismatch])
  {
    var s := Schedule;
    assert s[..1] == [CheckNewFiles];
    assert s[..2] == [CheckNewFiles, LoadToStaging];
    assert s[..4] == [CheckNewFiles, LoadToStaging, CheckDuplicates, CheckAmountMismatch];
    assert s[4] == TransformToFact && CheckDuplicates in s[..4] && CheckAmountMismatch in s[..4];
    assert s[..5] == s[..4] + [TransformToFact];
    assert s[..6] == s[..5] + [UpdateHourlyAgg];
    var p := [CheckNewFiles, LoadToStaging, CheckAmountMismatch];
    assert p[..1] == [CheckNewFiles];
    assert p[..2] == [CheckNewFiles, LoadToStaging];
  }

  /** The tasks that complete, in schedule order. */
  function CompletedTasks(oc: Outcomes): (r: seq<Task>)
    ensures forall t :: t in r <==> Completes(t, oc)
    ensures InDependencyOrder(r)
  {
    CompletionConditions(oc);
    ScheduleInDependencyOrder();
    if !oc.filesFound then []
    else if !oc.loaded then [CheckNewFiles]
    else if !oc.noDuplicates then [CheckNewFiles, LoadToStaging, CheckAmountMismatch]
    else (forall t ensures t in Schedule { ScheduleHoldsEveryTask(t); } Schedule)
  }
}
