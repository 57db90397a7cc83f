/**
  Workflow tasks and their grouping by ultimate parent. A task is the root of
  its group when it has no ultimate parent or is its own ultimate parent; its
  group collects the other tasks naming it as ultimate parent. The backend and
  the UI share the grouping and differ only in how they order the groups.
*/
module Tasks {
  import opened Wrappers
  import Text
  import opened Sorting

  /** A task field; a number value of the UI is carried as its text. */
  datatype Field = Field(name: string, value: Option<string>)

  /**
    The parts of a workflow task the grouping, the filters and the panels read.
    `ultimateParent` is the id of the ultimate parent reference, when there is
    one; `createdAt` is `version.asAtCreated`.
  */
  datatype Task = Task(
    id: string,
    displayName: string,
    state: string,
    ultimateParent: Option<string>,
    correlationIds: seq<string>,
    createdAt: string,
    fields: seq<Field>)

  datatype TaskGroup = TaskGroup(ultimateParent: Task, children: seq<Task>, totalCount: int)

  predicate IsRoot(t: Task) {
    t.ultimateParent.None? || t.id == t.ultimateParent.value
  }

  function Ids(ts: seq<Task>): set<string> {
    set t | t in ts :: t.id
  }

  /** The roots, the first task of each root id, in input order. */
  function Roots(tasks: seq<Task>): seq<Task> {
    if tasks == [] then []
    else
      var n := |tasks|;
      var rs := Roots(tasks[..n - 1]);
      if IsRoot(tasks[n - 1]) && tasks[n - 1].id !in Ids(rs) then rs + [tasks[n - 1]] else rs
  }

  /** The tasks other than roots whose ultimate parent is `id`, in input order. */
  function Children(tasks: seq<Task>, id: string): seq<Task> {
    if tasks == [] then []
    else
      var n := |tasks|;
      var t := tasks[n - 1];
      Children(tasks[..n - 1], id) + (if !IsRoot(t) && t.ultimateParent == Some(id) then [t] else [])
  }

  function GroupOf(tasks: seq<Task>, root: Task): TaskGroup {
    var cs := Children(tasks, root.id);
    TaskGroup(root, cs, |cs| + 1)
  }

  /** The groups in the order their roots first appear. */
  function Grouped(tasks: seq<Task>): seq<TaskGroup> {
    var rs := Roots(tasks);
    seq(|rs|, k requires 0 <= k < |rs| => GroupOf(tasks, rs[k]))
  }

  /** The backend's order: the roots' `asAtCreated` texts compared as strings. */
  function ByCreatedText(): (TaskGroup, TaskGroup) -> bool {
    (a: TaskGroup, b: TaskGroup) => Text.StrLe(a.ultimateParent.createdAt, b.ultimateParent.createdAt)
  }

  /** The UI's order: the roots' creation instants, `time` standing for `new Date(..).getTime()`. */
  function ByCreatedTime(time: string -> int): (TaskGroup, TaskGroup) -> bool {
    (a: TaskGroup, b: TaskGroup) => time(a.ultimateParent.createdAt) <= time(b.ultimateParent.createdAt)
  }

  lemma ByCreatedTextTotal()
    ensures TotalPreorder(ByCreatedText())
  {
    var le := ByCreatedText();
    forall a: TaskGroup, b: TaskGroup ensures le(a, b) || le(b, a) {
      Text.StrLeTotal(a.ultimateParent.createdAt, b.ultimateParent.createdAt);
    }
    forall a: TaskGroup, b: TaskGroup, c: TaskGroup | le(a, b) && le(b, c) ensures le(a, c) {
      Text.StrLeTransitive(a.ultimateParent.createdAt, b.ultimateParent.createdAt, c.ultimateParent.createdAt);
    }
  }

  lemma ByCreatedTimeTotal(time: string -> int)
    ensures TotalPreorder(ByCreatedTime(time))
  {
  }

  /** `group_tasks_by_ultimate_parent` / `groupTasksByUltimateParent`, with the order to sort by. */
  function GroupTasks(tasks: seq<Task>, le: (TaskGroup, TaskGroup) -> bool): seq<TaskGroup> {
    SortDesc(Grouped(tasks), le)
  }

  /**
    The two passes: the first creates a group for each new root id, the
    second appends each other task to the group of its ultimate parent, when
    there is one, and recounts that group; then the groups are sorted.
  */
  method GroupByUltimateParent(tasks: seq<Task>, le: (TaskGroup, TaskGroup) -> bool) returns (groups: seq<TaskGroup>)
    ensures groups == GroupTasks(tasks, le)
  {
    var roots, index, empty := RootsPass(tasks);
    groups := ChildrenPass(tasks, roots, index, empty);
    assert groups == Grouped(tasks);
    groups := SortDesc(groups, le);
  }

  /** The first pass: a group with no children for the first task of each root id. */
  method RootsPass(tasks: seq<Task>) returns (roots: seq<Task>, index: map<string, nat>, groups: seq<TaskGroup>)
    ensures roots == Roots(tasks) && IndexOf(index, roots)
    ensures |groups| == |roots| && forall k :: 0 <= k < |roots| ==> groups[k] == TaskGroup(roots[k], [], 1)
  {
    roots := [];
    index := map[];
    groups := [];
    for i := 0 to |tasks|
      invariant roots == Roots(tasks[..i])
      invariant |groups| == |roots| && forall k :: 0 <= k < |roots| ==> groups[k] == TaskGroup(roots[k], [], 1)
      invariant IndexOf(index, roots)
    {
      assert tasks[..i + 1][..i] == tasks[..i];
      var t := tasks[i];
      if IsRoot(t) && t.id !in index {
        IndexAdd(index, roots, t);
        index := index[t.id := |roots|];
        roots := roots + [t];
        groups := groups + [TaskGroup(t, [], 1)];
      }
    }
    assert tasks[..|tasks|] == tasks;
  }

  /** The second pass: each task other than a root joins the group of its ultimate parent, if there is one. */
  method ChildrenPass(tasks: seq<Task>, roots: seq<Task>, index: map<string, nat>, start: seq<TaskGroup>) returns (groups: seq<TaskGroup>)
    requires IndexOf(index, roots)
    requires |start| == |roots| && forall k :: 0 <= k < |roots| ==> start[k] == TaskGroup(roots[k], [], 1)
    ensures |groups| == |roots| && forall k :: 0 <= k < |roots| ==> groups[k] == GroupOf(tasks, roots[k])
  {
    groups := start;
    for i := 0 to |tasks|
      invariant |groups| == |roots| && forall k :: 0 <= k < |roots| ==> groups[k] == GroupOf(tasks[..i], roots[k])
    {
      assert tasks[..i + 1][..i] == tasks[..i];
      var t := tasks[i];
      if !IsRoot(t) && t.ultimateParent.value in index {
        var k := index[t.ultimateParent.value];
        var cs := groups[k].children + [t];
        groups := groups[k := TaskGroup(groups[k].ultimateParent, cs, |cs| + 1)];
        forall j | 0 <= j < |roots| ensures groups[j] == GroupOf(tasks[..i + 1], roots[j]) {
          if j != k {
            assert roots[j].id != roots[k].id;
          }
        }
      } else {
        forall j | 0 <= j < |roots| ensures groups[j] == GroupOf(tasks[..i + 1], roots[j]) {
          assert roots[j] in roots;
        }
      }
    }
    assert tasks[..|tasks|] == tasks;
  }

  /** `index` maps each root id to the position of its group, and root ids are distinct. */
  ghost predicate IndexOf(index: map<string, nat>, roots: seq<Task>) {
    && (forall id :: id in index <==> id in Ids(roots))
    && (forall id :: id in index ==> index[id] < |roots| && roots[index[id]].id == id)
    && (forall a, b :: 0 <= a < b < |roots| ==> roots[a].id != roots[b].id)
  }

  lemma IndexAdd(index: map<string, nat>, roots: seq<Task>, t: Task)
    requires IndexOf(index, roots) && t.id !in index
    ensures IndexOf(index[t.id := |roots|], roots + [t])
    ensures Ids(roots + [t]) == Ids(roots) + {t.id}
  {
    var rs := roots + [t];
    assert forall k :: 0 <= k < |roots| ==> rs[k] == roots[k];
    forall id ensures id in Ids(rs) <==> id in Ids(roots) || id == t.id {
      if id in Ids(rs) {
        var r :| r in rs && r.id == id;
      }
      if id == t.id {
        assert rs[|roots|] == t;
      }
    }
    forall a, b | 0 <= a < b < |rs| ensures rs[a].id != rs[b].id {
      if b == |roots| {
        assert roots[a] in roots;
      }
    }
  }

  // Which tasks become roots

  lemma {:induction false} RootsPrefix(tasks: seq<Task>, i: nat)
    requires i <= |tasks|
    ensures Roots(tasks[..i]) <= Roots(tasks)
    decreases |tasks|
  {
    if i < |tasks| {
      var n := |tasks|;
      assert tasks[..n - 1][..i] == tasks[..i];
      RootsPrefix(tasks[..n - 1], i);
    } else {
      assert tasks[..i] == tasks;
    }
  }

  /** Every root is a task of the input that is a root. */
  lemma {:induction false} RootsAreRoots(tasks: seq<Task>)
    ensures forall t :: t in Roots(tasks) ==> IsRoot(t) && t in tasks
  {
    if tasks != [] {
      var n := |tasks|;
      RootsAreRoots(tasks[..n - 1]);
      assert forall t :: t in tasks[..n - 1] ==> t in tasks;
    }
  }

  /** No two groups share a root id. */
  lemma {:induction false} RootsDistinct(tasks: seq<Task>)
    ensures forall a, b :: 0 <= a < b < |Roots(tasks)| ==> Roots(tasks)[a].id != Roots(tasks)[b].id
  {
    if tasks != [] {
      var n := |tasks|;
      var rs := Roots(tasks[..n - 1]);
      RootsDistinct(tasks[..n - 1]);
      if IsRoot(tasks[n - 1]) && tasks[n - 1].id !in Ids(rs) {
        var r := rs + [tasks[n - 1]];
        forall a, b | 0 <= a < b < |r| ensures r[a].id != r[b].id {
          if b == |rs| {
            assert rs[a] in rs;
          }
        }
      }
    }
  }

  /** An id heads a group exactly when some root task of the input carries it. */
  lemma {:induction false} RootsIds(tasks: seq<Task>, id: string)
    ensures id in Ids(Roots(tasks)) <==> exists i :: 0 <= i < |tasks| && IsRoot(tasks[i]) && tasks[i].id == id
  {
    if tasks != [] {
      var n := |tasks|;
      var p := tasks[..n - 1];
      RootsIds(p, id);
      var rs := Roots(p);
      if id in Ids(Roots(tasks)) {
        if id !in Ids(rs) {
          assert IsRoot(tasks[n - 1]) && Roots(tasks) == rs + [tasks[n - 1]];
          var t :| t in Roots(tasks) && t.id == id;
          assert t == tasks[n - 1];
        } else {
          var i :| 0 <= i < |p| && IsRoot(p[i]) && p[i].id == id;
          assert tasks[i] == p[i];
        }
      }
      if exists i :: 0 <= i < |tasks| && IsRoot(tasks[i]) && tasks[i].id == id {
        var i :| 0 <= i < |tasks| && IsRoot(tasks[i]) && tasks[i].id == id;
        assert rs <= Roots(tasks);
        if i < n - 1 {
          assert p[i] == tasks[i];
          var t :| t in rs && t.id == id;
          assert t in Roots(tasks);
        } else if id !in Ids(rs) {
          assert tasks[n - 1] in Roots(tasks);
        } else {
          var t :| t in rs && t.id == id;
          assert t in Roots(tasks);
        }
      }
    }
  }

  /** The root kept for an id is its first root task: the first one is kept, and no other root task shares its id. */
  lemma RootsFirstWins(tasks: seq<Task>, i: nat)
    requires i < |tasks| && IsRoot(tasks[i])
    requires forall j :: 0 <= j < i ==> !IsRoot(tasks[j]) || tasks[j].id != tasks[i].id
    ensures tasks[i] in Roots(tasks)
  {
    var p := tasks[..i];
    RootsIds(p, tasks[i].id);
    assert tasks[..i + 1][..i] == p;
    assert tasks[..i + 1][i] == tasks[i];
    assert tasks[i] in Roots(tasks[..i + 1]);
    RootsPrefix(tasks, i + 1);
  }

  // Which tasks join which group

  /** A task is a child of `id` exactly when it is an input task other than a root naming `id` as ultimate parent. */
  lemma {:induction false} ChildrenSpec(tasks: seq<Task>, id: string, t: Task)
    ensures t in Children(tasks, id) <==> t in tasks && !IsRoot(t) && t.ultimateParent == Some(id)
  {
    if tasks != [] {
      var n := |tasks|;
      ChildrenSpec(tasks[..n - 1], id, t);
      assert tasks == tasks[..n - 1] + [tasks[n - 1]];
    }
  }

  /** Group `k` is headed by the `k`-th root, counts its children and itself, and holds exactly that root's children. */
  lemma GroupMembership(tasks: seq<Task>, k: nat, t: Task)
    requires k < |Grouped(tasks)|
    ensures Grouped(tasks)[k].ultimateParent == Roots(tasks)[k]
    ensures Grouped(tasks)[k].totalCount == |Grouped(tasks)[k].children| + 1
    ensures t in Grouped(tasks)[k].children <==> t in tasks && !IsRoot(t) && t.ultimateParent == Some(Roots(tasks)[k].id)
  {
    ChildrenSpec(tasks, Roots(tasks)[k].id, t);
  }

  /** A task other than a root whose ultimate parent heads a group is a child of exactly one group. */
  lemma ExactlyOneGroup(tasks: seq<Task>, t: Task)
    requires t in tasks && !IsRoot(t) && t.ultimateParent.value in Ids(Roots(tasks))
    ensures exists k :: 0 <= k < |Grouped(tasks)| && t in Grouped(tasks)[k].children
    ensures forall a, b :: 0 <= a < |Grouped(tasks)| && 0 <= b < |Grouped(tasks)| && t in Grouped(tasks)[a].children && t in Grouped(tasks)[b].children ==> a == b
  {
    var g := Grouped(tasks);
    var rs := Roots(tasks);
    RootsDistinct(tasks);
    var r :| r in rs && r.id == t.ultimateParent.value;
    var k :| 0 <= k < |rs| && rs[k] == r;
    GroupMembership(tasks, k, t);
    forall a, b | 0 <= a < |g| && 0 <= b < |g| && t in g[a].children && t in g[b].children ensures a == b {
      GroupMembership(tasks, a, t);
      GroupMembership(tasks, b, t);
    }
  }

  /** A task whose ultimate parent heads no group is dropped: it is neither a root nor a child of any group. */
  lemma OrphanDropped(tasks: seq<Task>, t: Task, k: nat)
    requires !IsRoot(t) && t.ultimateParent.value !in Ids(Roots(tasks))
    requires k < |Grouped(tasks)|
    ensures t !in Grouped(tasks)[k].children && Grouped(tasks)[k].ultimateParent != t
  {
    GroupMembership(tasks, k, t);
    RootsAreRoots(tasks);
    assert Roots(tasks)[k] in Roots(tasks);
  }

  // The order of the groups

  /** The groups come out sorted greatest first, as a permutation of the unsorted groups, with ties in first-appearance order. */
  lemma GroupTasksSpec(tasks: seq<Task>, le: (TaskGroup, TaskGroup) -> bool, e: TaskGroup)
    requires TotalPreorder(le)
    ensures Descending(GroupTasks(tasks, le), le)
    ensures multiset(GroupTasks(tasks, le)) == multiset(Grouped(tasks))
    ensures |GroupTasks(tasks, le)| == |Roots(tasks)|
    ensures Equivalents(GroupTasks(tasks, le), e, le) == Equivalents(Grouped(tasks), e, le)
  {
    SortDescSorted(Grouped(tasks), le);
    SortDescPerm(Grouped(tasks), le);
    SortDescStable(Grouped(tasks), e, le);
    assert |multiset(GroupTasks(tasks, le))| == |multiset(Grouped(tasks))|;
  }

  /** The backend lists the newest group first, comparing the `asAtCreated` texts. */
  lemma BackendNewestFirst(tasks: seq<Task>)
    ensures forall i, j :: 0 <= i < j < |GroupTasks(tasks, ByCreatedText())| ==>
              Text.StrLe(GroupTasks(tasks, ByCreatedText())[j].ultimateParent.createdAt, GroupTasks(tasks, ByCreatedText())[i].ultimateParent.createdAt)
  {
    ByCreatedTextTotal();
    SortDescSorted(Grouped(tasks), ByCreatedText());
  }

  /** The UI lists the newest group first, comparing creation instants. */
  lemma UiNewestFirst(tasks: seq<Task>, time: string -> int)
    ensures forall i, j :: 0 <= i < j < |GroupTasks(tasks, ByCreatedTime(time))| ==>
              time(GroupTasks(tasks, ByCreatedTime(time))[j].ultimateParent.createdAt) <= time(GroupTasks(tasks, ByCreatedTime(time))[i].ultimateParent.createdAt)
  {
    SortDescSorted(Grouped(tasks), ByCreatedTime(time));
  }

  /** Every group, after sorting, counts its children and itself. */
  lemma SortedGroupCounts(tasks: seq<Task>, le: (TaskGroup, TaskGroup) -> bool, g: TaskGroup)
    requires g in GroupTasks(tasks, le)
    ensures g.totalCount == |g.children| + 1 && g.ultimateParent in Roots(tasks)
  {
    SortDescPerm(Grouped(tasks), le);
    assert g in multiset(Grouped(tasks));
    var k :| 0 <= k < |Grouped(tasks)| && Grouped(tasks)[k] == g;
  }
}
