/**
  The UI's mock task list: two ultimate-parent tasks, the first with three
  children, and the groups the panel shows for it.
*/
module MockTasks {
  import opened Wrappers
  import opened Sorting
  import opened Tasks

  const ParentId := "2b888027-60e4-405e-82c6-bc0be9493e2e"
  const OtherParentId := "ac6f4add-24d9-430b-9e3a-c02e0b370a00"
  const ParentName := "Aggregation Errors Parent Task"
  const ChildName := "Aggregation Errors Exception"

  /** A child of the first parent; its error text, when it has one, is shortened to its opening words. */
  function Child(id: string, state: string, createdAt: string, portfolio: string, name: string, ticker: string, hasError: bool): Task {
    Task(id, ChildName, state, Some(ParentId), ["Early Morning DQ"], createdAt,
      [Field("PortfolioCode", Some(portfolio)), Field("Name", Some(name)), Field("Ticker", Some(ticker))]
      + if hasError then [Field("Error", Some("Failed to resolve market data"))] else [])
  }

  /** The mock tasks in their listed order, with the fields the panels read. */
  function MockTaskList(): seq<Task> {
    [
      Task(ParentId, ParentName, "inReview", None, ["Early Morning DQ"], "2025-09-01T22:44:18.5067730+00:00", []),
      Child("0006c6c2-a96a-4c4b-a283-549cb7b56998", "InReview", "2025-09-01T22:44:18.5067730+00:00", "ARMO", "JERVOIS GLOBAL LTD", "JRV", true),
      Child("1234c6c2-a96a-4c4b-a283-549cb7b56998", "Pending", "2025-09-02T14:30:22.1234567+00:00", "TECH", "COMMONWEALTH BANK OF AUSTRALIA", "CBA", true),
      Child("5678c6c2-a96a-4c4b-a283-549cb7b56998", "Resolved", "2025-08-30T09:15:45.7890123+00:00", "INFRA", "TELSTRA CORPORATION LIMITED", "TLS", false),
      Task(OtherParentId, ParentName, "Completed", None, ["Late Morning DQ"], "2025-08-29T17:02:03.1790910+00:00", [])
    ]
  }

  lemma RootsSnoc(ts: seq<Task>, t: Task)
    ensures Roots(ts + [t]) == if IsRoot(t) && t.id !in Ids(Roots(ts)) then Roots(ts) + [t] else Roots(ts)
  {
    assert (ts + [t])[..|ts|] == ts;
  }

  lemma ChildrenSnoc(ts: seq<Task>, t: Task, id: string)
    ensures Children(ts + [t], id) == Children(ts, id) + if !IsRoot(t) && t.ultimateParent == Some(id) then [t] else []
  {
    assert (ts + [t])[..|ts|] == ts;
  }

  /** The children of the first root across the five tasks: the three in the middle. */
  lemma FirstRootChildren(r1: Task, c1: Task, c2: Task, c3: Task, r2: Task)
    requires IsRoot(r1) && IsRoot(r2) && !IsRoot(c1) && !IsRoot(c2) && !IsRoot(c3)
    requires c1.ultimateParent == Some(r1.id) && c2.ultimateParent == Some(r1.id) && c3.ultimateParent == Some(r1.id)
    ensures Children([r1, c1, c2, c3, r2], r1.id) == [c1, c2, c3]
  {
    var s0: seq<Task> := [];
    var s1 := s0 + [r1];
    var s2 := s1 + [c1];
    var s3 := s2 + [c2];
    var s4 := s3 + [c3];
    var s5 := s4 + [r2];
    ChildrenSnoc(s0, r1, r1.id);
    ChildrenSnoc(s1, c1, r1.id);
    ChildrenSnoc(s2, c2, r1.id);
    ChildrenSnoc(s3, c3, r1.id);
    ChildrenSnoc(s4, r2, r1.id);
    assert Children(s5, r1.id) == [c1, c2, c3];
    assert s5 == [r1, c1, c2, c3, r2];
  }

  /** The second root has no children among the five tasks. */
  lemma SecondRootChildren(r1: Task, c1: Task, c2: Task, c3: Task, r2: Task)
    requires IsRoot(r1) && IsRoot(r2) && r1.id != r2.id
    requires c1.ultimateParent == Some(r1.id) && c2.ultimateParent == Some(r1.id) && c3.ultimateParent == Some(r1.id)
    ensures Children([r1, c1, c2, c3, r2], r2.id) == []
  {
    var s0: seq<Task> := [];
    var s1 := s0 + [r1];
    var s2 := s1 + [c1];
    var s3 := s2 + [c2];
    var s4 := s3 + [c3];
    var s5 := s4 + [r2];
    ChildrenSnoc(s0, r1, r2.id);
    ChildrenSnoc(s1, c1, r2.id);
    ChildrenSnoc(s2, c2, r2.id);
    ChildrenSnoc(s3, c3, r2.id);
    ChildrenSnoc(s4, r2, r2.id);
    assert Children(s5, r2.id) == [];
    assert s5 == [r1, c1, c2, c3, r2];
  }

  /** A list of two roots around three children of the first groups as the first root with its children, then the second alone. */
  lemma TwoRootsGrouped(r1: Task, c1: Task, c2: Task, c3: Task, r2: Task)
    requires IsRoot(r1) && IsRoot(r2) && r1.id != r2.id
    requires !IsRoot(c1) && !IsRoot(c2) && !IsRoot(c3)
    requires c1.ultimateParent == Some(r1.id) && c2.ultimateParent == Some(r1.id) && c3.ultimateParent == Some(r1.id)
    ensures Grouped([r1, c1, c2, c3, r2]) == [TaskGroup(r1, [c1, c2, c3], 4), TaskGroup(r2, [], 1)]
  {
    var s5 := [r1, c1, c2, c3, r2];
    TwoRoots(r1, c1, c2, c3, r2);
    FirstRootChildren(r1, c1, c2, c3, r2);
    SecondRootChildren(r1, c1, c2, c3, r2);
    assert GroupOf(s5, r1) == TaskGroup(r1, [c1, c2, c3], 4);
    assert GroupOf(s5, r2) == TaskGroup(r2, [], 1);
  }

  /** The roots of the five tasks: the first and the last. */
  lemma TwoRoots(r1: Task, c1: Task, c2: Task, c3: Task, r2: Task)
    requires IsRoot(r1) && IsRoot(r2) && r1.id != r2.id
    requires !IsRoot(c1) && !IsRoot(c2) && !IsRoot(c3)
    ensures Roots([r1, c1, c2, c3, r2]) == [r1, r2]
  {
    var s0: seq<Task> := [];
    var s1 := s0 + [r1];
    var s2 := s1 + [c1];
    var s3 := s2 + [c2];
    var s4 := s3 + [c3];
    var s5 := s4 + [r2];
    RootsSnoc(s0, r1);
    assert Ids([r1]) == {r1.id};
    RootsSnoc(s1, c1);
    RootsSnoc(s2, c2);
    RootsSnoc(s3, c3);
    RootsSnoc(s4, r2);
    assert s5 == [r1, c1, c2, c3, r2];
  }

  /** Two groups sort newest first; on a tie they keep their order. */
  lemma TwoGroupsSorted(g1: TaskGroup, g2: TaskGroup, le: (TaskGroup, TaskGroup) -> bool)
    requires le(g2, g1)
    ensures SortDesc([g1, g2], le) == [g1, g2]
  {
    var s := [g1, g2];
    assert s[1..] == [g2];
    var one := [g2];
    assert one[1..] == [];
    assert SortDesc([g2], le) == [g2];
  }

  /**
    `getMockTaskGroups`: the first parent with its three children
    (totalCount 4), then the other parent alone (totalCount 1), as long as
    the first parent was not created after the second by the clock reading
    the creation times; with equal readings (an unparsable date included) the
    stable sort keeps the listed order.
  */
  lemma MockGroups(time: string -> int)
    requires time("2025-08-29T17:02:03.1790910+00:00") <= time("2025-09-01T22:44:18.5067730+00:00")
    ensures var ts := MockTaskList(); var gs := GroupTasks(ts, ByCreatedTime(time));
            && gs == [TaskGroup(ts[0], [ts[1], ts[2], ts[3]], 4), TaskGroup(ts[4], [], 1)]
            && gs[0].ultimateParent.id == ParentId && gs[1].ultimateParent.id == OtherParentId
  {
    var ts := MockTaskList();
    var r1, c1, c2, c3, r2 := ts[0], ts[1], ts[2], ts[3], ts[4];
    assert ts == [r1, c1, c2, c3, r2];
    assert r1.id != r2.id by {
      assert r1.id[0] != r2.id[0];
    }
    TwoRootsGrouped(r1, c1, c2, c3, r2);
    TwoGroupsSorted(TaskGroup(r1, [c1, c2, c3], 4), TaskGroup(r2, [], 1), ByCreatedTime(time));
  }

  /** `getMockTaskGroups`, by the same two passes and sort as every grouping. */
  method GetMockTaskGroups(time: string -> int) returns (groups: seq<TaskGroup>)
    requires time("2025-08-29T17:02:03.1790910+00:00") <= time("2025-09-01T22:44:18.5067730+00:00")
    ensures |groups| == 2
    ensures groups[0].ultimateParent.id == ParentId && |groups[0].children| == 3 && groups[0].totalCount == 4
    ensures groups[0].children[0].id == "0006c6c2-a96a-4c4b-a283-549cb7b56998"
    ensures groups[0].children[1].id == "1234c6c2-a96a-4c4b-a283-549cb7b56998"
    ensures groups[0].children[2].id == "5678c6c2-a96a-4c4b-a283-549cb7b56998"
    ensures groups[1].ultimateParent.id == OtherParentId && groups[1].children == [] && groups[1].totalCount == 1
  {
    groups := GroupByUltimateParent(MockTaskList(), ByCreatedTime(time));
    MockGroups(time);
  }
}
