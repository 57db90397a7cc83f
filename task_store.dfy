/**
  The task part of the UI's playground store: the selected tasks, the task
  groups shown in the panel and the task filter. Each action replaces one
  field with a new value computed from the old state; the functions here are
  those values, and the class applies them.
*/
module TaskStore {
  import opened Wrappers
  import opened Tasks
  import opened LusidFilter

  const DefaultEndpoint := "http://localhost:7777"

  /** The test of a task whose id is not among `ids`. */
  function OutsideTest(ids: set<string>): Task -> bool {
    (t: Task) => t.id !in ids
  }

  /** The tasks whose id is not among `ids`, in order. */
  function WithoutIds(ts: seq<Task>, ids: set<string>): seq<Task> {
    Keep(ts, OutsideTest(ids))
  }

  /** `addSelectedTask`: earlier copies of the task dropped, the task appended. */
  function AddTask(selected: seq<Task>, task: Task): seq<Task> {
    WithoutIds(selected, {task.id}) + [task]
  }

  /** `removeSelectedTask`. */
  function RemoveTask(selected: seq<Task>, taskId: string): seq<Task> {
    WithoutIds(selected, {taskId})
  }

  function GroupIds(g: TaskGroup): set<string> {
    {g.ultimateParent.id} + Ids(g.children)
  }

  /** `addSelectedTaskGroup`: earlier copies of the group's tasks dropped, then the root and its children appended. */
  function AddGroup(selected: seq<Task>, g: TaskGroup): seq<Task> {
    WithoutIds(selected, GroupIds(g)) + [g.ultimateParent] + g.children
  }

  /** `taskGroups.find(g => g.ultimateParent.id === id)`. */
  function FindGroup(groups: seq<TaskGroup>, rootId: string): (r: Option<TaskGroup>)
    ensures r.Some? ==> r.value in groups && r.value.ultimateParent.id == rootId
    ensures r.None? <==> forall g :: g in groups ==> g.ultimateParent.id != rootId
  {
    if groups == [] then None
    else if groups[0].ultimateParent.id == rootId then Some(groups[0])
    else FindGroup(groups[1..], rootId)
  }

  /** `removeSelectedTaskGroup`: the root and the children of the stored group with that root removed; no such group, no change. */
  function RemoveGroup(selected: seq<Task>, groups: seq<TaskGroup>, rootId: string): seq<Task> {
    var g := FindGroup(groups, rootId);
    if g.None? then selected else WithoutIds(selected, {rootId} + Ids(g.value.children))
  }

  /** The number of tasks carrying an id. */
  function CountId(ts: seq<Task>, id: string): nat {
    if ts == [] then 0 else CountId(ts[..|ts| - 1], id) + (if ts[|ts| - 1].id == id then 1 else 0)
  }

  lemma {:induction false} CountIdAppend(a: seq<Task>, b: seq<Task>, id: string)
    ensures CountId(a + b, id) == CountId(a, id) + CountId(b, id)
    decreases |b|
  {
    if b == [] {
      assert a + b == a;
    } else {
      var n := |b|;
      assert (a + b)[..|a + b| - 1] == a + b[..n - 1];
      CountIdAppend(a, b[..n - 1], id);
    }
  }

  lemma {:induction false} CountIdNone(ts: seq<Task>, id: string)
    requires forall t :: t in ts ==> t.id != id
    ensures CountId(ts, id) == 0
  {
    if ts != [] {
      assert ts[|ts| - 1] in ts;
      assert forall t :: t in ts[..|ts| - 1] ==> t in ts;
      CountIdNone(ts[..|ts| - 1], id);
    }
  }

  /** What `WithoutIds` keeps: exactly the tasks whose id is not among `ids`. */
  lemma WithoutIdsSpec(ts: seq<Task>, ids: set<string>)
    ensures forall t :: t in WithoutIds(ts, ids) <==> t in ts && t.id !in ids
  {
    forall t ensures t in WithoutIds(ts, ids) <==> t in ts && t.id !in ids {
      KeepSpec(ts, OutsideTest(ids), t);
    }
  }

  /**
    After `addSelectedTask` exactly one task carries the id, the new one,
    placed last; the tasks before it are the old selection without that id,
    in their old order.
  */
  lemma AddTaskSpec(selected: seq<Task>, task: Task)
    ensures var r := AddTask(selected, task);
            && r[|r| - 1] == task
            && r[..|r| - 1] == Keep(selected, (t: Task) => t.id != task.id)
            && CountId(r, task.id) == 1
            && (forall t :: t in r <==> t == task || (t in selected && t.id != task.id))
  {
    var w := WithoutIds(selected, {task.id});
    WithoutIdsSpec(selected, {task.id});
    KeepSame(selected, OutsideTest({task.id}), (t: Task) => t.id != task.id);
    CountIdNone(w, task.id);
    CountIdAppend(w, [task], task.id);
    var one := [task];
    assert one[..0] == [];
    assert (w + [task])[..|w|] == w;
  }

  /** `removeSelectedTask` removes every task with the id and keeps the others in order. */
  lemma RemoveTaskSpec(selected: seq<Task>, taskId: string)
    ensures CountId(RemoveTask(selected, taskId), taskId) == 0
    ensures forall t :: t in RemoveTask(selected, taskId) <==> t in selected && t.id != taskId
    ensures RemoveTask(selected, taskId) == Keep(selected, (t: Task) => t.id != taskId)
  {
    WithoutIdsSpec(selected, {taskId});
    CountIdNone(RemoveTask(selected, taskId), taskId);
    KeepSame(selected, OutsideTest({taskId}), (t: Task) => t.id != taskId);
  }

  /**
    `addSelectedTaskGroup` ends the selection with the root followed by the
    children in order; the tasks before them are the old selection without
    any of the group's ids.
  */
  lemma AddGroupSpec(selected: seq<Task>, g: TaskGroup)
    ensures var r := AddGroup(selected, g); var n := |g.children| + 1;
            && |r| >= n
            && r[|r| - n..] == [g.ultimateParent] + g.children
            && r[..|r| - n] == WithoutIds(selected, GroupIds(g))
            && (forall t :: t in r[..|r| - n] <==> t in selected && t.id !in GroupIds(g))
  {
    var w := WithoutIds(selected, GroupIds(g));
    WithoutIdsSpec(selected, GroupIds(g));
    assert AddGroup(selected, g) == w + ([g.ultimateParent] + g.children);
  }

  /**
    `removeSelectedTaskGroup` leaves the selection as it is when no stored
    group has that root; otherwise it removes exactly the tasks carrying the
    root id or the id of one of that stored group's children.
  */
  lemma RemoveGroupSpec(selected: seq<Task>, groups: seq<TaskGroup>, rootId: string)
    ensures (forall g :: g in groups ==> g.ultimateParent.id != rootId) ==> RemoveGroup(selected, groups, rootId) == selected
    ensures FindGroup(groups, rootId).Some? ==>
              var g := FindGroup(groups, rootId).value;
              && g in groups && g.ultimateParent.id == rootId
              && forall t :: t in RemoveGroup(selected, groups, rootId) <==> t in selected && t.id !in GroupIds(g)
  {
    var g := FindGroup(groups, rootId);
    if g.Some? {
      WithoutIdsSpec(selected, {rootId} + Ids(g.value.children));
    }
  }

  // The task filter

  /** A key of `Partial<TaskFilter>`: left out, or given, possibly as `undefined`. */
  datatype Patch<T> = Absent | Present(value: Option<T>)

  datatype FilterPatch = FilterPatch(
    dateFrom: Patch<string>,
    dateTo: Patch<string>,
    searchQuery: Patch<string>,
    states: Patch<seq<string>>,
    correlationIds: Patch<seq<string>>)

  const EmptyFilter := TaskFilter(None, None, None, None, None)
  const NoPatch := FilterPatch(Absent, Absent, Absent, Absent, Absent)

  function Over<T>(current: Option<T>, p: Patch<T>): Option<T> {
    if p.Present? then p.value else current
  }

  /** `{ ...taskFilter, ...patch }`. */
  function Merge(f: TaskFilter, p: FilterPatch): TaskFilter {
    TaskFilter(
      Over(f.dateFrom, p.dateFrom),
      Over(f.dateTo, p.dateTo),
      Over(f.searchQuery, p.searchQuery),
      Over(f.states, p.states),
      Over(f.correlationIds, p.correlationIds))
  }

  function Then<T>(p: Patch<T>, q: Patch<T>): Patch<T> {
    if q.Present? then q else p
  }

  /** The patch that does what `p` then `q` do. */
  function ThenPatch(p: FilterPatch, q: FilterPatch): FilterPatch {
    FilterPatch(
      Then(p.dateFrom, q.dateFrom),
      Then(p.dateTo, q.dateTo),
      Then(p.searchQuery, q.searchQuery),
      Then(p.states, q.states),
      Then(p.correlationIds, q.correlationIds))
  }

  /** Keys given overwrite, even with `undefined`; keys left out keep their values. */
  lemma MergeSpec(f: TaskFilter, p: FilterPatch)
    ensures var m := Merge(f, p);
            && (p.dateFrom.Present? ==> m.dateFrom == p.dateFrom.value) && (p.dateFrom.Absent? ==> m.dateFrom == f.dateFrom)
            && (p.dateTo.Present? ==> m.dateTo == p.dateTo.value) && (p.dateTo.Absent? ==> m.dateTo == f.dateTo)
            && (p.searchQuery.Present? ==> m.searchQuery == p.searchQuery.value) && (p.searchQuery.Absent? ==> m.searchQuery == f.searchQuery)
            && (p.states.Present? ==> m.states == p.states.value) && (p.states.Absent? ==> m.states == f.states)
            && (p.correlationIds.Present? ==> m.correlationIds == p.correlationIds.value)
            && (p.correlationIds.Absent? ==> m.correlationIds == f.correlationIds)
  {
  }

  /** Merging is idempotent, the empty partial changes nothing, and two merges are one merge of the combined partial. */
  lemma MergeLaws(f: TaskFilter, p: FilterPatch, q: FilterPatch)
    ensures Merge(f, NoPatch) == f
    ensures Merge(Merge(f, p), p) == Merge(f, p)
    ensures Merge(Merge(f, p), q) == Merge(f, ThenPatch(p, q))
  {
  }

  /** The state `persist` writes to local storage: the selected endpoint only. */
  datatype PersistedState = PersistedState(selectedEndpoint: string)

  /** The task slice of `usePlaygroundStore`, with the endpoint the store persists. */
  class PlaygroundStore {
    var selectedTasks: seq<Task>
    var taskGroups: seq<TaskGroup>
    var taskFilter: TaskFilter
    var selectedEndpoint: string

    /** The initial state. */
    constructor ()
      ensures selectedTasks == [] && taskGroups == [] && taskFilter == EmptyFilter
      ensures selectedEndpoint == DefaultEndpoint
    {
      selectedTasks := [];
      taskGroups := [];
      taskFilter := EmptyFilter;
      selectedEndpoint := DefaultEndpoint;
    }

    /** `partialize`: what survives a reload. */
    function Persisted(): PersistedState
      reads this
    {
      PersistedState(selectedEndpoint)
    }

    method AddSelectedTask(task: Task)
      modifies this
      ensures selectedTasks == AddTask(old(selectedTasks), task)
      ensures taskGroups == old(taskGroups) && taskFilter == old(taskFilter) && selectedEndpoint == old(selectedEndpoint)
    {
      selectedTasks := AddTask(selectedTasks, task);
    }

    method RemoveSelectedTask(taskId: string)
      modifies this
      ensures selectedTasks == RemoveTask(old(selectedTasks), taskId)
      ensures taskGroups == old(taskGroups) && taskFilter == old(taskFilter) && selectedEndpoint == old(selectedEndpoint)
    {
      selectedTasks := RemoveTask(selectedTasks, taskId);
    }

    method AddSelectedTaskGroup(group: TaskGroup)
      modifies this
      ensures selectedTasks == AddGroup(old(selectedTasks), group)
      ensures taskGroups == old(taskGroups) && taskFilter == old(taskFilter) && selectedEndpoint == old(selectedEndpoint)
    {
      selectedTasks := AddGroup(selectedTasks, group);
    }

    method RemoveSelectedTaskGroup(ultimateParentId: string)
      modifies this
      ensures selectedTasks == RemoveGroup(old(selectedTasks), old(taskGroups), ultimateParentId)
      ensures taskGroups == old(taskGroups) && taskFilter == old(taskFilter) && selectedEndpoint == old(selectedEndpoint)
    {
      var group := FindGroup(taskGroups, ultimateParentId);
      if group.None? {
        return;
      }
      selectedTasks := WithoutIds(selectedTasks, {ultimateParentId} + Ids(group.value.children));
    }

    method SetTaskFilter(filter: FilterPatch)
      modifies this
      ensures taskFilter == Merge(old(taskFilter), filter)
      ensures selectedTasks == old(selectedTasks) && taskGroups == old(taskGroups) && selectedEndpoint == old(selectedEndpoint)
    {
      taskFilter := Merge(taskFilter, filter);
    }

    method SetTaskGroups(groups: seq<TaskGroup>)
      modifies this
      ensures taskGroups == groups
      ensures selectedTasks == old(selectedTasks) && taskFilter == old(taskFilter) && selectedEndpoint == old(selectedEndpoint)
    {
      taskGroups := groups;
    }

    /** `clearSelectedTasks`: the selection emptied, and nothing persisted changes. */
    method ClearSelectedTasks()
      modifies this
      ensures selectedTasks == []
      ensures taskGroups == old(taskGroups) && taskFilter == old(taskFilter) && Persisted() == old(Persisted())
    {
      selectedTasks := [];
    }
  }
}
