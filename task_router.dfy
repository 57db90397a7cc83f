/**
  The `GET /tasks` endpoint: the filter read from the query string, local
  filtering, grouping and the totals of the response. The fetch from LUSID
  is a parameter: the tasks it returned, or the message of its failure.
*/
module TaskRouter {
  import opened Wrappers
  import Text
  import opened Tasks
  import opened LusidFilter

  /** A comma-separated query parameter: split on "," when given and non-empty. */
  function ParseList(param: Option<string>): (r: Option<seq<string>>)
    ensures r.None? <==> param.None? || param.value == ""
  {
    if param.Some? && param.value != "" then Some(Text.Split(param.value, ',')) else None
  }

  /** The filter built from the query parameters. */
  function BuildFilter(dateFrom: Option<string>, dateTo: Option<string>, searchQuery: Option<string>,
                       states: Option<string>, correlationIds: Option<string>): TaskFilter {
    TaskFilter(dateFrom, dateTo, searchQuery, ParseList(states), ParseList(correlationIds))
  }

  datatype TasksResponse = TasksResponse(taskGroups: seq<TaskGroup>, totalTasks: nat, totalGroups: nat)

  /** The HTTP error the endpoint raises. */
  datatype HttpError = HttpError(status: nat, detail: string)

  /** `get_tasks`, the groups ordered by the `asAtCreated` texts. */
  function GetTasks(filter: TaskFilter, fetched: Result<seq<Task>, string>): Result<TasksResponse, HttpError> {
    match fetched
    case Failure(message) => Failure(HttpError(500, "Failed to fetch tasks: " + message))
    case Success(tasks) =>
      var filtered := FilterTasksLocally(tasks, filter);
      var groups := GroupTasks(filtered, ByCreatedText());
      Success(TasksResponse(groups, |filtered|, |groups|))
  }

  /** Splitting loses nothing: joining the parts with "," gives back the parameter. */
  lemma ParseListRoundTrip(param: Option<string>)
    requires param.Some? && param.value != ""
    ensures ParseList(param).Some? && Text.Join(ParseList(param).value, ",") == param.value
  {
    Text.JoinSplit(param.value, ',');
  }

  /**
    The response reports the number of filtered tasks and of groups, which is
    the number of distinct root ids among the filtered tasks; a failed fetch
    is an HTTP 500 carrying its message.
  */
  lemma GetTasksSpec(filter: TaskFilter, fetched: Result<seq<Task>, string>)
    ensures fetched.Failure? ==> GetTasks(filter, fetched) == Failure(HttpError(500, "Failed to fetch tasks: " + fetched.error))
    ensures fetched.Success? ==>
      var r := GetTasks(filter, fetched).value;
      var filtered := FilterTasksLocally(fetched.value, filter);
      && GetTasks(filter, fetched).Success?
      && r.totalTasks == |filtered|
      && r.totalGroups == |r.taskGroups| == |Roots(filtered)|
      && multiset(r.taskGroups) == multiset(Grouped(filtered))
  {
    if fetched.Success? {
      var filtered := FilterTasksLocally(fetched.value, filter);
      ByCreatedTextTotal();
      GroupTasksSpec(filtered, ByCreatedText(), TaskGroup(Task("", "", "", None, [], "", []), [], 1));
    }
  }

  /** Dates and states are parsed but not applied: two filters differing only there select the same tasks. */
  lemma DatesAndStatesIgnored(tasks: seq<Task>, f: TaskFilter, g: TaskFilter)
    requires f.searchQuery == g.searchQuery && f.correlationIds == g.correlationIds
    ensures FilterTasksLocally(tasks, f) == FilterTasksLocally(tasks, g)
  {
  }
}
