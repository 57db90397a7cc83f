/**
  The task panel's view of the stored groups: the groups that pass every
  active filter of the store, in their stored order, and the footer counts.
  Date texts are read through `day`, the calendar day (in local time) of the
  instant a text denotes.
*/
module TaskPanel {
  import opened Wrappers
  import Text
  import opened Tasks
  import opened LusidFilter

  /** A filter value JavaScript treats as set: present and not the empty text. */
  predicate Given(s: Option<string>) {
    s.Some? && s.value != ""
  }

  /** The date filter: the root's creation day lies between the given days, both ends included. */
  predicate PassesDate(g: TaskGroup, f: TaskFilter, day: string -> int) {
    (Given(f.dateFrom) || Given(f.dateTo)) ==>
      var created := day(g.ultimateParent.createdAt);
      && (Given(f.dateFrom) ==> !(created < day(f.dateFrom.value)))
      && (Given(f.dateTo) ==> !(created > day(f.dateTo.value)))
  }

  /** The lower-cased display name or state holds the query. */
  predicate NameOrStateHas(t: Task, query: string) {
    Text.Contains(Text.Lower(t.displayName), query) || Text.Contains(Text.Lower(t.state), query)
  }

  /** The search filter: the root or some child names the lower-cased query in its display name or state. */
  predicate PassesSearch(g: TaskGroup, f: TaskFilter) {
    Given(f.searchQuery) ==>
      var query := Text.Lower(f.searchQuery.value);
      NameOrStateHas(g.ultimateParent, query) || exists i :: 0 <= i < |g.children| && NameOrStateHas(g.children[i], query)
  }

  /** The correlation ids of the root and, after them, those of each child. */
  function GroupCorrelationIds(g: TaskGroup): seq<string> {
    g.ultimateParent.correlationIds + ChildCorrelationIds(g.children)
  }

  function ChildCorrelationIds(children: seq<Task>): seq<string> {
    if children == [] then [] else children[0].correlationIds + ChildCorrelationIds(children[1..])
  }

  /** The batch filter: some filter id is among the group's correlation ids. */
  predicate PassesBatch(g: TaskGroup, f: TaskFilter) {
    CorrelationSet(f) ==>
      exists i :: 0 <= i < |f.correlationIds.value| && f.correlationIds.value[i] in GroupCorrelationIds(g)
  }

  predicate StatesSet(f: TaskFilter) {
    f.states.Some? && f.states.value != []
  }

  /** The state filter: the root's or some child's state is one of the listed ones, compared exactly. */
  predicate PassesStates(g: TaskGroup, f: TaskFilter) {
    StatesSet(f) ==>
      g.ultimateParent.state in f.states.value || exists i :: 0 <= i < |g.children| && g.children[i].state in f.states.value
  }

  predicate Shown(g: TaskGroup, f: TaskFilter, day: string -> int) {
    PassesDate(g, f, day) && PassesSearch(g, f) && PassesBatch(g, f) && PassesStates(g, f)
  }

  function ShownTest(f: TaskFilter, day: string -> int): TaskGroup -> bool {
    g => Shown(g, f, day)
  }

  /** `filteredGroups`. */
  function FilteredGroups(groups: seq<TaskGroup>, f: TaskFilter, day: string -> int): seq<TaskGroup> {
    Keep(groups, ShownTest(f, day))
  }

  /** `filteredGroups.reduce((sum, group) => sum + group.totalCount, 0)`. */
  function TotalTasks(groups: seq<TaskGroup>): int {
    if groups == [] then 0 else TotalTasks(groups[..|groups| - 1]) + groups[|groups| - 1].totalCount
  }

  /** The footer: the number of groups shown, whether "group" takes a plural "s", and the total of their counts. */
  datatype Footer = Footer(groupCount: nat, plural: bool, totalTasks: int)

  function FooterOf(groups: seq<TaskGroup>, f: TaskFilter, day: string -> int): (r: Footer)
    ensures r.groupCount == |FilteredGroups(groups, f, day)| && (r.plural <==> r.groupCount != 1)
  {
    var shown := FilteredGroups(groups, f, day);
    Footer(|shown|, |shown| != 1, TotalTasks(shown))
  }

  /**
    A group is shown exactly when it is stored and passes every active
    filter, and filtering keeps the stored order: it distributes over
    concatenation.
  */
  lemma FilteredSpec(groups: seq<TaskGroup>, more: seq<TaskGroup>, f: TaskFilter, day: string -> int, g: TaskGroup)
    ensures g in FilteredGroups(groups, f, day) <==> g in groups && Shown(g, f, day)
    ensures FilteredGroups(groups + more, f, day) == FilteredGroups(groups, f, day) + FilteredGroups(more, f, day)
    ensures |FilteredGroups(groups, f, day)| <= |groups|
  {
    KeepSpec(groups, ShownTest(f, day), g);
    KeepAppend(groups, more, ShownTest(f, day));
    KeepLength(groups, ShownTest(f, day));
  }

  /** With no filter given every stored group is shown. */
  lemma NoFilterShowsAll(groups: seq<TaskGroup>, f: TaskFilter, day: string -> int)
    requires !Given(f.dateFrom) && !Given(f.dateTo) && !Given(f.searchQuery) && !CorrelationSet(f) && !StatesSet(f)
    ensures FilteredGroups(groups, f, day) == groups
  {
    KeepAll(groups, ShownTest(f, day));
  }

  /**
    The state filter keeps a group exactly when the root's or some child's
    state is one of the listed texts as written: a state that differs only
    in case does not pass.
  */
  lemma StatesSpec(g: TaskGroup, f: TaskFilter)
    requires StatesSet(f)
    ensures PassesStates(g, f) <==> g.ultimateParent.state in f.states.value || exists c :: c in g.children && c.state in f.states.value
    ensures f.states.value == ["pending"] && g.ultimateParent.state == "Pending" && g.children == [] ==> !PassesStates(g, f)
  {
    if PassesStates(g, f) && g.ultimateParent.state !in f.states.value {
      var i :| 0 <= i < |g.children| && g.children[i].state in f.states.value;
      assert g.children[i] in g.children;
    }
    if f.states.value == ["pending"] && g.ultimateParent.state == "Pending" {
      assert g.ultimateParent.state[0] != "pending"[0];
    }
  }

  /** A group created on the first or the last day of the window passes the date filter. */
  lemma DateWindowInclusive(g: TaskGroup, f: TaskFilter, day: string -> int)
    requires Given(f.dateFrom) && Given(f.dateTo)
    requires day(g.ultimateParent.createdAt) == day(f.dateFrom.value) || day(g.ultimateParent.createdAt) == day(f.dateTo.value)
    requires day(f.dateFrom.value) <= day(f.dateTo.value)
    ensures PassesDate(g, f, day)
  {
  }

  /**
    The panel's search is narrower than the client's: a group it shows has a
    task, the root or a child, that the client's search would keep.
  */
  lemma PanelSearchWithinClientSearch(g: TaskGroup, f: TaskFilter)
    requires Given(f.searchQuery) && PassesSearch(g, f)
    ensures exists t :: (t == g.ultimateParent || t in g.children) && MatchesSearch(t, Text.Lower(f.searchQuery.value))
  {
    var query := Text.Lower(f.searchQuery.value);
    if !NameOrStateHas(g.ultimateParent, query) {
      var i :| 0 <= i < |g.children| && NameOrStateHas(g.children[i], query);
      assert MatchesSearch(g.children[i], query);
    } else {
      assert MatchesSearch(g.ultimateParent, query);
    }
  }

  /** A child's correlation ids count for its group. */
  lemma {:induction false} ChildCorrelationIdsSpec(children: seq<Task>, id: string)
    ensures id in ChildCorrelationIds(children) <==> exists i :: 0 <= i < |children| && id in children[i].correlationIds
  {
    if children != [] {
      ChildCorrelationIdsSpec(children[1..], id);
      if id in ChildCorrelationIds(children[1..]) {
        var i :| 0 <= i < |children[1..]| && id in children[1..][i].correlationIds;
        assert id in children[i + 1].correlationIds;
      }
      if exists i :: 0 <= i < |children| && id in children[i].correlationIds {
        var i :| 0 <= i < |children| && id in children[i].correlationIds;
        if i > 0 {
          assert id in children[1..][i - 1].correlationIds;
        }
      }
    }
  }

  /** The batch filter keeps a group exactly when the root or some child shares a filter id. */
  lemma BatchSpec(g: TaskGroup, f: TaskFilter)
    requires CorrelationSet(f)
    ensures PassesBatch(g, f) <==>
              exists k :: 0 <= k < |f.correlationIds.value| &&
                (f.correlationIds.value[k] in g.ultimateParent.correlationIds
                 || exists i :: 0 <= i < |g.children| && f.correlationIds.value[k] in g.children[i].correlationIds)
  {
    forall k | 0 <= k < |f.correlationIds.value| {
      ChildCorrelationIdsSpec(g.children, f.correlationIds.value[k]);
    }
  }

  lemma {:induction false} TotalTasksAppend(a: seq<TaskGroup>, b: seq<TaskGroup>)
    ensures TotalTasks(a + b) == TotalTasks(a) + TotalTasks(b)
    decreases |b|
  {
    if b == [] {
      assert a + b == a;
    } else {
      assert (a + b)[..|a + b| - 1] == a + b[..|b| - 1];
      TotalTasksAppend(a, b[..|b| - 1]);
    }
  }

  /** With every count at least one, the footer total is at least the number of groups shown and at most the stored total. */
  lemma {:induction false} FooterBounds(groups: seq<TaskGroup>, f: TaskFilter, day: string -> int)
    requires forall g :: g in groups ==> g.totalCount >= 1
    ensures var r := FooterOf(groups, f, day); r.groupCount <= r.totalTasks <= TotalTasks(groups)
  {
    if groups != [] {
      var init := groups[..|groups| - 1];
      var last := groups[|groups| - 1];
      var p := ShownTest(f, day);
      assert forall g :: g in init ==> g in groups;
      FooterBounds(init, f, day);
      var kept := Keep(init, p);
      assert Keep(groups, p) == kept + (if p(last) then [last] else []);
      if p(last) {
        TotalTasksSnoc(kept, last);
      } else {
        assert kept + [] == kept;
      }
    }
  }

  lemma TotalTasksSnoc(a: seq<TaskGroup>, g: TaskGroup)
    ensures TotalTasks(a + [g]) == TotalTasks(a) + g.totalCount
  {
    assert (a + [g])[..|a + [g]| - 1] == a;
  }
}
