/**
  The background task runner (backend/mastery/data_import/run_background_tasks.py):
  a queue of data maintenance tasks, of which run() claims the oldest one
  that is due, feeds the chunks its job yields into the task's result, and
  then marks it finished, or schedules a retry with back-off, or marks it
  failed.

  The table of tasks is a sequence indexed by row. Clocks are parameters:
  `now` is the reading taken when claiming, `later` stands for every
  reading taken afterwards. The chunks a job yields, and the exception it
  may raise afterwards, are supplied by the caller per job.
 */
module BackgroundTasks {
  import opened Text

  datatype Status = Pending | Running | Finished | Failed

  /** One entry of the "errors" list of a result. */
  datatype ErrorEntry = ErrorEntry(error: string, message: string)

  /** A task's JSON result: the "errors" list, if the key is there, and every other key. */
  datatype Report = Report(summary: map<string, string>, errors: Option<seq<ErrorEntry>>)

  /** One dict yielded by a job: the result to store and whether the job is done. */
  datatype Chunk = Chunk(result: Option<Report>, isDone: bool)

  /** What a job's generator does: the chunks it yields, then possibly an exception with its message. */
  datatype Work = Work(chunks: seq<Chunk>, failure: Option<string>)

  datatype Job = UpdateSchools | FetchGroupsFromFeide | FetchMembershipsFromFeide | ImportGroups | ImportMemberships

  datatype Task = Task(
    jobName: string,
    orgNumber: Option<string>,
    status: Status,
    handlerName: Option<string>,
    attempts: nat,
    createdAt: int,
    earliestRunAt: Option<int>,
    startedAt: Option<int>,
    lastHeartbeatAt: Option<int>,
    finishedAt: Option<int>,
    failedAt: Option<int>,
    result: Option<Report>)

  /** Seconds to wait before the first, second and third retry. */
  const RetryBackoff: seq<int> := [60, 180, 600]

  /** The filter of claim_next_task; a NULL earliest_run_at never compares as due. */
  predicate Claimable(t: Task, now: int) {
    t.status == Pending && t.handlerName.None? && t.earliestRunAt.Some? && t.earliestRunAt.value <= now
  }

  /**
    The row claim_next_task picks: a claimable task with the least
    created_at, the first such row when several tie.
   */
  function Oldest(tasks: seq<Task>, now: int): (r: Option<nat>)
    ensures r.Some? ==> r.value < |tasks| && Claimable(tasks[r.value], now)
    ensures r.Some? ==> forall j :: 0 <= j < |tasks| && Claimable(tasks[j], now) ==>
      tasks[r.value].createdAt < tasks[j].createdAt || (tasks[r.value].createdAt == tasks[j].createdAt && r.value <= j)
    ensures r.None? <==> forall j :: 0 <= j < |tasks| ==> !Claimable(tasks[j], now)
    decreases |tasks|
  {
    if tasks == [] then None
    else
      var last := |tasks| - 1;
      var r := Oldest(tasks[..last], now);
      if Claimable(tasks[last], now) && (r.None? || tasks[last].createdAt < tasks[r.value].createdAt) then Some(last)
      else r
  }

  /** The task after claim_next_task took it, with the handler name it drew. */
  function Claimed(t: Task, now: int, handler: string): Task {
    t.(status := Running, startedAt := Some(now), lastHeartbeatAt := Some(now),
       handlerName := Some(handler), attempts := t.attempts + 1)
  }

  /** next_execution_time: the moment of the retry after the given attempt. */
  function NextExecutionTime(attempts: nat, now: int): (r: int)
    requires 1 <= attempts <= |RetryBackoff|
    ensures r - now == RetryBackoff[attempts - 1]
    ensures 60 <= r - now <= 600
  {
    now + RetryBackoff[attempts - 1]
  }

  /** append_error_to_result: the result with one more "unexpected-error", its message cut at 1000 characters. */
  function AppendErrorToResult(result: Option<Report>, error: string): (r: Report)
    ensures r.errors.Some? && |r.errors.value| >= 1
    ensures var base := result.GetOr(Report(map[], None));
      r.summary == base.summary && r.errors.value[..|r.errors.value| - 1] == base.errors.GetOr([])
    ensures var e := r.errors.value[|r.errors.value| - 1];
      e.error == "unexpected-error" && |e.message| == Min(|error|, 1000) && e.message == error[..|e.message|]
    ensures |error| <= 1000 ==> r.errors.value[|r.errors.value| - 1].message == error
  {
    var base := result.GetOr(Report(map[], None));
    var errors := base.errors.GetOr([]);
    Report(base.summary, Some(errors + [ErrorEntry("unexpected-error", Take(error, 1000))]))
  }

  /** The job a job name dispatches to. */
  function JobOf(name: string): Option<Job> {
    if name == "update_schools" then Some(UpdateSchools)
    else if name == "fetch_groups_from_feide" then Some(FetchGroupsFromFeide)
    else if name == "fetch_memberships_from_feide" then Some(FetchMembershipsFromFeide)
    else if name == "import_groups" then Some(ImportGroups)
    else if name == "import_memberships" then Some(ImportMemberships)
    else None
  }

  /**
    do_work: a task without an org_number, or with an unknown job name,
    raises ValueError before yielding anything; otherwise it is the
    named job's work.
   */
  function DoWork(t: Task, jobs: Job -> Work): (w: Work)
    ensures (t.orgNumber.None? || t.orgNumber == Some("")) ==> w.chunks == [] && w.failure.Some?
    ensures JobOf(t.jobName).None? ==> w.chunks == [] && w.failure.Some?
    ensures t.orgNumber.Some? && t.orgNumber.value != "" && JobOf(t.jobName).Some? ==> w == jobs(JobOf(t.jobName).value)
  {
    if t.orgNumber.None? || t.orgNumber.value == "" then
      Work([], Some("Missing org_number for job_name '" + t.jobName + "'"))
    else if JobOf(t.jobName).None? then
      Work([], Some("Unknown job_name '" + t.jobName + "'"))
    else jobs(JobOf(t.jobName).value)
  }

  /** How many chunks run() consumes: up to and including the first that is done, else all. */
  function Consumed(chunks: seq<Chunk>): (n: nat)
    ensures n <= |chunks|
    ensures forall j :: 0 <= j < n - 1 ==> !chunks[j].isDone
    ensures n < |chunks| ==> n > 0 && chunks[n - 1].isDone
    decreases |chunks|
  {
    if chunks == [] then 0
    else if chunks[0].isDone then 1
    else 1 + Consumed(chunks[1..])
  }

  /** The generator was stopped by a chunk that is done. */
  predicate Stopped(chunks: seq<Chunk>) {
    exists j :: 0 <= j < |chunks| && chunks[j].isDone
  }

  /** The loop in run() ends with an exception: no chunk was done and the job then raised. */
  predicate Raised(w: Work) {
    !Stopped(w.chunks) && w.failure.Some?
  }

  /** The task after update_progress for the first k chunks. */
  function Progressed(t: Task, chunks: seq<Chunk>, k: nat, later: int): Task
    requires k <= |chunks|
  {
    if k == 0 then t else t.(result := chunks[k - 1].result, lastHeartbeatAt := Some(later))
  }

  /** The except branch of run(): a retry while attempts remain, otherwise failure. */
  function Retry(t: Task, error: string, later: int): (r: Task)
    requires t.attempts >= 1
  {
    var result := Some(AppendErrorToResult(t.result, error));
    if t.attempts <= |RetryBackoff| then
      t.(result := result, status := Pending, handlerName := None, failedAt := None,
         earliestRunAt := Some(NextExecutionTime(t.attempts, later)))
    else
      t.(result := result, status := Failed, failedAt := Some(later), earliestRunAt := None)
  }

  /** The claimed task at the end of run(). */
  function Outcome(t: Task, w: Work, later: int): Task
    requires t.attempts >= 1
  {
    var p := Progressed(t, w.chunks, Consumed(w.chunks), later);
    if Raised(w) then Retry(p, w.failure.value, later)
    else p.(status := Finished, finishedAt := Some(later))
  }

  /**
    With a clock that does not run backwards (now <= later), a claimed
    and run task has started_at <= last_heartbeat_at <= finished_at, and a
    task that failed for good has failed_at at the end of the run.
   */
  lemma TimestampsOrdered(t: Task, now: int, later: int, handler: string, w: Work)
    requires now <= later
    ensures var o := Outcome(Claimed(t, now, handler), w, later);
      o.startedAt == Some(now) && o.lastHeartbeatAt.Some? && now <= o.lastHeartbeatAt.value <= later
      && (o.status == Finished ==> o.finishedAt == Some(later))
      && (o.status == Failed ==> o.failedAt == Some(later))
  {
  }

  class TaskQueue {
    var tasks: seq<Task>

    constructor(tasks: seq<Task>)
      ensures this.tasks == tasks
    {
      this.tasks := tasks;
    }

    /** claim_next_task. */
    method ClaimNextTask(now: int, handler: string) returns (claimed: Option<nat>)
      modifies this
      ensures claimed == Oldest(old(tasks), now)
      ensures claimed.None? ==> tasks == old(tasks)
      ensures claimed.Some? ==> tasks == old(tasks)[claimed.value := Claimed(old(tasks)[claimed.value], now, handler)]
    {
      claimed := Oldest(tasks, now);
      if claimed.Some? {
        var i := claimed.value;
        var t := tasks[i];
        t := t.(status := Running, startedAt := Some(now), lastHeartbeatAt := Some(now));
        t := t.(handlerName := Some(handler), attempts := t.attempts + 1);
        tasks := tasks[i := t];
      }
    }

    /** run(): claim a task, feed it its job's chunks, then finish it or handle the failure. */
    method Run(now: int, later: int, handler: string, jobs: Job -> Work) returns (ran: Option<nat>)
      requires now <= later
      modifies this
      ensures ran == Oldest(old(tasks), now)
      ensures ran.None? ==> tasks == old(tasks)
      ensures ran.Some? ==>
        (var t := Claimed(old(tasks)[ran.value], now, handler);
         tasks == old(tasks)[ran.value := Outcome(t, DoWork(t, jobs), later)])
    {
      ran := ClaimNextTask(now, handler);
      if ran.None? {
        return;
      }
      var i := ran.value;
      var claimed := tasks[i];
      var work := DoWork(claimed, jobs);
      var k, done := ReportProgress(i, work.chunks, later);
      if !done && work.failure.Some? {
        HandleFailure(i, work.failure.value, later);
      } else {
        tasks := tasks[i := tasks[i].(status := Finished, finishedAt := Some(later))];
      }
    }

    /**
      The loop of run() over the job's chunks: each one's result is stored
      with a heartbeat, up to and including the first chunk that is done.
     */
    method ReportProgress(i: nat, chunks: seq<Chunk>, later: int) returns (k: nat, done: bool)
      requires i < |tasks|
      modifies this
      ensures k == Consumed(chunks)
      ensures done <==> Stopped(chunks)
      ensures tasks == old(tasks)[i := Progressed(old(tasks)[i], chunks, k, later)]
    {
      ghost var start := tasks[i];
      k := 0;
      done := false;
      while k < |chunks| && !done
        invariant 0 <= k <= |chunks| && i < |tasks|
        invariant forall j :: 0 <= j < k - 1 ==> !chunks[j].isDone
        invariant done <==> k > 0 && chunks[k - 1].isDone
        invariant tasks == old(tasks)[i := Progressed(start, chunks, k, later)]
      {
        tasks := tasks[i := tasks[i].(result := chunks[k].result, lastHeartbeatAt := Some(later))];
        done := chunks[k].isDone;
        k := k + 1;
      }
      ConsumedIsFirstDone(chunks, k);
    }

    method HandleFailure(i: nat, error: string, later: int)
      requires i < |tasks| && tasks[i].attempts >= 1
      modifies this
      ensures tasks == old(tasks)[i := Retry(old(tasks)[i], error, later)]
    {
      var t := tasks[i];
      var result := AppendErrorToResult(t.result, error);
      if t.attempts <= |RetryBackoff| {
        t := t.(result := Some(result), status := Pending, handlerName := None, failedAt := None);
        t := t.(earliestRunAt := Some(NextExecutionTime(t.attempts, later)));
      } else {
        t := t.(result := Some(result), status := Failed, failedAt := Some(later), earliestRunAt := None);
      }
      tasks := tasks[i := t];
    }
  }

  /** The loop's stopping point is the number of chunks Consumed counts. */
  lemma {:induction false} ConsumedIsFirstDone(chunks: seq<Chunk>, k: nat)
    requires k <= |chunks|
    requires forall j :: 0 <= j < k - 1 ==> !chunks[j].isDone
    requires (k > 0 && chunks[k - 1].isDone) || k == |chunks|
    ensures Consumed(chunks) == k
    ensures !(k > 0 && chunks[k - 1].isDone) ==> !Stopped(chunks)
    ensures k > 0 && chunks[k - 1].isDone ==> Stopped(chunks)
    decreases k
  {
    if k > 0 && chunks[0].isDone {
      assert k == 1;
    } else if k > 0 {
      ConsumedIsFirstDone(chunks[1..], k - 1);
      if !chunks[k - 1].isDone {
        forall j | 0 <= j < |chunks|
          ensures !chunks[j].isDone
        {
          if j > 0 {
            assert chunks[1..][j - 1] == chunks[j];
          }
        }
      }
    }
  }

  /** A run whose job did not raise finishes the task, with the result of the last chunk it consumed. */
  lemma SuccessFinishes(t: Task, w: Work, later: int)
    requires t.attempts >= 1 && !Raised(w)
    ensures Outcome(t, w, later).status == Finished && Outcome(t, w, later).finishedAt == Some(later)
    ensures Consumed(w.chunks) > 0 ==> Outcome(t, w, later).result == w.chunks[Consumed(w.chunks) - 1].result
    ensures Consumed(w.chunks) == 0 ==> Outcome(t, w, later).result == t.result
    ensures Outcome(t, w, later).attempts == t.attempts && Outcome(t, w, later).handlerName == t.handlerName
  {
  }

  /**
    A job that raised while attempts remain puts the task back in the
    queue: pending, unclaimed, due once its back-off has passed and not
    before; one error is added to its result.
   */
  lemma FailureSchedulesRetry(t: Task, w: Work, later: int, at: int)
    requires 1 <= t.attempts <= |RetryBackoff| && Raised(w)
    ensures var o := Outcome(t, w, later);
      o.status == Pending && o.handlerName.None? && o.failedAt.None? &&
      o.earliestRunAt == Some(later + RetryBackoff[t.attempts - 1]) &&
      (Claimable(o, at) <==> at >= later + RetryBackoff[t.attempts - 1])
    ensures Outcome(t, w, later).result.Some? && Outcome(t, w, later).result.value.errors.Some?
  {
  }

  /** After the last retry the task fails for good: it keeps its handler name and is never due again. */
  lemma FailureExhaustsRetries(t: Task, w: Work, later: int, at: int)
    requires t.attempts > |RetryBackoff| && Raised(w)
    ensures var o := Outcome(t, w, later);
      o.status == Failed && o.failedAt == Some(later) && o.earliestRunAt.None? &&
      o.handlerName == t.handlerName && !Claimable(o, at)
  {
  }

  /**
    Each claim counts one attempt, so a task is claimed at most four times:
    one that raised is due again only if its claim was its first, second
    or third attempt.
   */
  lemma AttemptsBounded(t: Task, now: int, handler: string, w: Work, later: int, at: int)
    requires Raised(w)
    requires Claimable(Outcome(Claimed(t, now, handler), w, later), at)
    ensures t.attempts < |RetryBackoff|
    ensures Outcome(Claimed(t, now, handler), w, later).attempts == t.attempts + 1
  {
  }

  /** A task without an org_number, or with an unknown job, fails its attempt without yielding. */
  lemma BadTaskRaises(t: Task, jobs: Job -> Work)
    requires t.orgNumber.None? || t.orgNumber == Some("") || JobOf(t.jobName).None?
    ensures Raised(DoWork(t, jobs)) && Consumed(DoWork(t, jobs).chunks) == 0
  {
  }

  /** A task whose earliest_run_at is later than now, or unset, is not claimed. */
  lemma NotDueNotClaimed(tasks: seq<Task>, now: int, i: nat)
    requires i < |tasks| && (tasks[i].earliestRunAt.None? || tasks[i].earliestRunAt.value > now)
    ensures Oldest(tasks, now) != Some(i)
  {
  }
}
