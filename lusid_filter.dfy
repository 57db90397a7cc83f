/**
  The local filtering the LUSID client applies to fetched workflow tasks: a
  case-insensitive search over a task's display name, state and fields, and a
  batch filter on shared correlation ids. The fetch itself, its
  authentication and the date and state parts of the filter are not applied
  here.
*/
module LusidFilter {
  import opened Wrappers
  import Text
  import opened Tasks

  /** The filter the router builds from the query string (`TaskFilter`). */
  datatype TaskFilter = TaskFilter(
    dateFrom: Option<string>,
    dateTo: Option<string>,
    searchQuery: Option<string>,
    states: Option<seq<string>>,
    correlationIds: Option<seq<string>>)

  /** The elements satisfying `p`, in input order (a list comprehension, `Array.filter`). */
  function Keep<T>(tasks: seq<T>, p: T -> bool): seq<T> {
    if tasks == [] then []
    else Keep(tasks[..|tasks| - 1], p) + (if p(tasks[|tasks| - 1]) then [tasks[|tasks| - 1]] else [])
  }

  /** `query` occurs in the lower-cased name of the field, or in its value when that is a non-empty text. */
  predicate FieldMatches(f: Field, query: string) {
    || Text.Contains(Text.Lower(f.name), query)
    || (f.value.Some? && f.value.value != "" && Text.Contains(Text.Lower(f.value.value), query))
  }

  /** The search test, for a query already lower-cased. */
  predicate MatchesSearch(t: Task, query: string) {
    || Text.Contains(Text.Lower(t.displayName), query)
    || Text.Contains(Text.Lower(t.state), query)
    || exists i :: 0 <= i < |t.fields| && FieldMatches(t.fields[i], query)
  }

  /** The batch test: some id of the filter is among the task's correlation ids. */
  predicate SharesCorrelation(t: Task, ids: seq<string>) {
    exists i :: 0 <= i < |ids| && ids[i] in t.correlationIds
  }

  function SearchTest(query: string): Task -> bool {
    t => MatchesSearch(t, query)
  }

  function CorrelationTest(ids: seq<string>): Task -> bool {
    t => SharesCorrelation(t, ids)
  }

  predicate SearchSet(f: TaskFilter) {
    f.searchQuery.Some? && f.searchQuery.value != ""
  }

  predicate CorrelationSet(f: TaskFilter) {
    f.correlationIds.Some? && f.correlationIds.value != []
  }

  /** `filter_tasks_locally`: the search filter, if set, then the batch filter, if set. */
  function FilterTasksLocally(tasks: seq<Task>, f: TaskFilter): seq<Task> {
    var searched :=
      if SearchSet(f) then
        var query := Text.Lower(f.searchQuery.value);
        Keep(tasks, SearchTest(query))
      else tasks;
    if CorrelationSet(f) then
      var ids := f.correlationIds.value;
      Keep(searched, CorrelationTest(ids))
    else searched
  }

  /** The test a task passes to be kept by `f`. */
  predicate Passes(t: Task, f: TaskFilter) {
    && (SearchSet(f) ==> MatchesSearch(t, Text.Lower(f.searchQuery.value)))
    && (CorrelationSet(f) ==> SharesCorrelation(t, f.correlationIds.value))
  }

  /** An element is kept exactly when it is in the input and passes. */
  lemma {:induction false} KeepSpec<T>(tasks: seq<T>, p: T -> bool, t: T)
    ensures t in Keep(tasks, p) <==> t in tasks && p(t)
  {
    if tasks != [] {
      var n := |tasks|;
      KeepSpec(tasks[..n - 1], p, t);
      assert tasks == tasks[..n - 1] + [tasks[n - 1]];
    }
  }

  /** Keeping distributes over concatenation, so the kept tasks stay in their input order. */
  lemma {:induction false} KeepAppend<T>(a: seq<T>, b: seq<T>, p: T -> bool)
    ensures Keep(a + b, p) == Keep(a, p) + Keep(b, p)
    decreases |b|
  {
    if b != [] {
      var n := |b|;
      assert (a + b)[..|a + b| - 1] == a + b[..n - 1];
      KeepAppend(a, b[..n - 1], p);
    } else {
      assert a + b == a;
    }
  }

  /** Keeping never lengthens. */
  lemma {:induction false} KeepLength<T>(xs: seq<T>, p: T -> bool)
    ensures |Keep(xs, p)| <= |xs|
  {
    if xs != [] {
      KeepLength(xs[..|xs| - 1], p);
    }
  }

  /** Keeping twice is keeping once by both tests. */
  lemma {:induction false} KeepKeep<T>(tasks: seq<T>, p: T -> bool, q: T -> bool, both: T -> bool)
    requires forall t :: both(t) == (p(t) && q(t))
    ensures Keep(Keep(tasks, p), q) == Keep(tasks, both)
  {
    if tasks != [] {
      var n := |tasks|;
      var last := tasks[n - 1];
      KeepKeep(tasks[..n - 1], p, q, both);
      KeepAppend(Keep(tasks[..n - 1], p), if p(last) then [last] else [], q);
      assert Keep([last], q) == Keep([], q) + (if q(last) then [last] else []);
    }
  }

  /** A test every task passes keeps the list unchanged. */
  lemma {:induction false} KeepAll<T>(tasks: seq<T>, p: T -> bool)
    requires forall t :: t in tasks ==> p(t)
    ensures Keep(tasks, p) == tasks
  {
    if tasks != [] {
      var n := |tasks|;
      assert forall t :: t in tasks[..n - 1] ==> t in tasks;
      KeepAll(tasks[..n - 1], p);
    }
  }

  /** The filtered list is the input kept by the conjunction of the active filters. */
  lemma FilterIsKeep(tasks: seq<Task>, f: TaskFilter)
    ensures FilterTasksLocally(tasks, f) == Keep(tasks, t => Passes(t, f))
  {
    if SearchSet(f) && CorrelationSet(f) {
      var query := Text.Lower(f.searchQuery.value);
      var ids := f.correlationIds.value;
      var both := (t: Task) => SearchTest(query)(t) && CorrelationTest(ids)(t);
      KeepKeep(tasks, SearchTest(query), CorrelationTest(ids), both);
      KeepSame(tasks, both, t => Passes(t, f));
    } else if SearchSet(f) {
      var query := Text.Lower(f.searchQuery.value);
      KeepSame(tasks, SearchTest(query), t => Passes(t, f));
    } else if CorrelationSet(f) {
      var ids := f.correlationIds.value;
      KeepSame(tasks, CorrelationTest(ids), t => Passes(t, f));
    } else {
      KeepAll(tasks, t => Passes(t, f));
    }
  }

  lemma {:induction false} KeepSame<T>(tasks: seq<T>, p: T -> bool, q: T -> bool)
    requires forall t :: p(t) == q(t)
    ensures Keep(tasks, p) == Keep(tasks, q)
  {
    if tasks != [] {
      KeepSame(tasks[..|tasks| - 1], p, q);
    }
  }

  /**
    A task is kept exactly when it is an input task that passes every active
    filter; with neither filter set, the list is unchanged.
  */
  lemma FilterSpec(tasks: seq<Task>, f: TaskFilter, t: Task)
    ensures t in FilterTasksLocally(tasks, f) <==> t in tasks && Passes(t, f)
    ensures !SearchSet(f) && !CorrelationSet(f) ==> FilterTasksLocally(tasks, f) == tasks
  {
    FilterIsKeep(tasks, f);
    KeepSpec(tasks, u => Passes(u, f), t);
  }

  /** The filtered list is a subsequence of the input: filtering a concatenation filters each part. */
  lemma FilterAppend(a: seq<Task>, b: seq<Task>, f: TaskFilter)
    ensures FilterTasksLocally(a + b, f) == FilterTasksLocally(a, f) + FilterTasksLocally(b, f)
  {
    FilterIsKeep(a + b, f);
    FilterIsKeep(a, f);
    FilterIsKeep(b, f);
    KeepAppend(a, b, t => Passes(t, f));
  }
}
