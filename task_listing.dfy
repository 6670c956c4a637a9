/**
  The listing of data maintenance tasks (DataMaintenanceTaskViewSet in
  backend/mastery/api/views.py), whose status filter names a column the
  model does not have.
 */
module TaskListing {
  import opened Text
  import opened RequestParams
  import opened Lookups
  import opened Listings

  /** The columns of DataMaintenanceTask that a filter may name. */
  const TaskColumns: set<string> := {
    "id", "status", "job_name", "job_params", "display_name", "claimed_by", "is_overwrite_enabled",
    "is_crash_on_error_enabled", "started_at", "failed_at", "finished_at", "last_heartbeat_at", "result",
    "created_at", "updated_at", "deleted_at", "maintained_at"
  }

  /** Django refuses a filter on a field the model does not have (FieldError, a server error). */
  function FilterTasks(filters: set<Filter>, field: Field, value: Param): (r: Listing)
    ensures r.Query? <==> Lookup(field) in TaskColumns
    ensures r.Query? ==> r.filters == filters + {Eq(field, value)} && !r.distinct
  {
    if Lookup(field) in TaskColumns then Query(filters + {Eq(field, value)}, false) else ServerError
  }

  /** DataMaintenanceTaskViewSet.get_queryset as written: the status filter names the field "statuts". */
  method ListTasksAsWritten(rq: ReadQuery, isList: bool) returns (r: Listing)
    ensures r == ServerError <==> isList && Truthy(Arg(rq, TaskStatus))
    ensures r != ServerError ==> r == Query({}, false)
  {
    r := Query({}, false);
    if isList {
      var status := Arg(rq, TaskStatus);
      if Truthy(status) {
        r := FilterTasks({}, Statuts, status);
      }
    }
  }

  /** Asking for the tasks with a status, as the endpoint documents, fails: a status such as "pending" is truthy. */
  lemma StatusFilterFails(q: map<string, string>, v: string)
    requires Spelling(TaskStatus) in q && q[Spelling(TaskStatus)] == v
    requires v != [] && !IsSpace(v[0]) && LowerChar(v[0]) != 'f'
    ensures Truthy(Arg(Read(q), TaskStatus))
  {
    ReadAgrees(q, TaskStatus);
    GetRequestParamSpec(q, Spelling(TaskStatus));
    assert Lower(Strip(v)) != "false" by {
      assert Strip(v)[0] == v[0];
    }
  }

  /** DataMaintenanceTaskViewSet.get_queryset with the filter on the status column. */
  method ListTasks(rq: ReadQuery, isList: bool) returns (r: Listing)
    ensures r.Query? && !r.distinct
    ensures r.filters == {} <==> !isList || !Truthy(Arg(rq, TaskStatus))
    ensures r.filters != {} ==> r.filters == {Eq(Status, Arg(rq, TaskStatus))}
  {
    r := Query({}, false);
    if isList {
      var status := Arg(rq, TaskStatus);
      if Truthy(status) {
        r := FilterTasks({}, Status, status);
      }
    }
  }
}
