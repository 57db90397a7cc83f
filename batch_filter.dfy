/**
  The batch filter control: toggling batches in and out of the store's
  `correlationIds` filter, clearing it, and the text of its button.
*/
module BatchFilter {
  import opened Wrappers
  import Text
  import opened LusidFilter
  import opened TaskStore

  const BatchOptions: seq<string> := ["Overnight DQ", "Early Morning DQ", "Late Morning DQ", "Afternoon DQ"]

  /** `taskFilter.correlationIds || []`. */
  function SelectedBatches(f: TaskFilter): seq<string> {
    if f.correlationIds.Some? then f.correlationIds.value else []
  }

  function Without(bs: seq<string>, batch: string): seq<string> {
    Keep(bs, (b: string) => b != batch)
  }

  /** The new batch list: the batch removed when selected, appended otherwise. */
  function Toggled(bs: seq<string>, batch: string): seq<string> {
    if batch in bs then Without(bs, batch) else bs + [batch]
  }

  function OnlyCorrelationIds(ids: Option<seq<string>>): FilterPatch {
    FilterPatch(Absent, Absent, Absent, Absent, Present(ids))
  }

  /** `handleBatchToggle`: the patch it hands to `setTaskFilter`; an empty list is stored as `undefined`. */
  function TogglePatch(f: TaskFilter, batch: string): FilterPatch {
    var next := Toggled(SelectedBatches(f), batch);
    OnlyCorrelationIds(if |next| > 0 then Some(next) else None)
  }

  /** `handleClearAll`. */
  function ClearPatch(): FilterPatch {
    OnlyCorrelationIds(None)
  }

  /** The button text: 'All batches', the one batch, or '<n> batches'. */
  function DisplayText(f: TaskFilter): string {
    var bs := SelectedBatches(f);
    if |bs| == 0 then "All batches"
    else if |bs| == 1 then bs[0]
    else Text.NatToString(|bs|) + " batches"
  }

  predicate NoDuplicates(bs: seq<string>) {
    forall i, j :: 0 <= i < j < |bs| ==> bs[i] != bs[j]
  }

  lemma WithoutSpec(bs: seq<string>, batch: string)
    ensures forall b :: b in Without(bs, batch) <==> b in bs && b != batch
  {
    forall b ensures b in Without(bs, batch) <==> b in bs && b != batch {
      KeepSpec(bs, (b: string) => b != batch, b);
    }
  }

  /** Removing every copy of a batch not in the list leaves it as it is. */
  lemma WithoutAbsent(bs: seq<string>, batch: string)
    requires batch !in bs
    ensures Without(bs, batch) == bs
  {
    KeepAll(bs, (b: string) => b != batch);
  }

  lemma {:induction false} WithoutNoDuplicates(bs: seq<string>, batch: string)
    requires NoDuplicates(bs)
    ensures NoDuplicates(Without(bs, batch))
  {
    if bs != [] {
      var init := bs[..|bs| - 1];
      var last := bs[|bs| - 1];
      assert NoDuplicates(init);
      WithoutNoDuplicates(init, batch);
      WithoutSpec(init, batch);
      assert last !in init;
    }
  }

  /**
    A toggle flips whether the batch is selected and leaves every other
    batch as it was; the rest of the filter is untouched, and no list is
    stored empty.
  */
  lemma ToggleSpec(f: TaskFilter, batch: string)
    ensures var m := Merge(f, TogglePatch(f, batch));
            && (batch in SelectedBatches(m) <==> batch !in SelectedBatches(f))
            && (forall b :: b != batch ==> (b in SelectedBatches(m) <==> b in SelectedBatches(f)))
            && m.dateFrom == f.dateFrom && m.dateTo == f.dateTo && m.searchQuery == f.searchQuery && m.states == f.states
            && (m.correlationIds.Some? ==> m.correlationIds.value != [])
  {
    WithoutSpec(SelectedBatches(f), batch);
  }

  /** An unselected batch is appended at the end. */
  lemma ToggleAppends(f: TaskFilter, batch: string)
    requires batch !in SelectedBatches(f)
    ensures SelectedBatches(Merge(f, TogglePatch(f, batch))) == SelectedBatches(f) + [batch]
  {
  }

  /**
    Toggling the same batch twice selects the same batches again, still
    without duplicates; when the batch was not selected, the very same list.
  */
  lemma ToggleTwice(f: TaskFilter, batch: string)
    requires NoDuplicates(SelectedBatches(f))
    ensures var once := Merge(f, TogglePatch(f, batch));
            var twice := Merge(once, TogglePatch(once, batch));
            && NoDuplicates(SelectedBatches(twice))
            && (forall b :: b in SelectedBatches(twice) <==> b in SelectedBatches(f))
            && (batch !in SelectedBatches(f) ==> SelectedBatches(twice) == SelectedBatches(f))
  {
    var bs := SelectedBatches(f);
    var once := Merge(f, TogglePatch(f, batch));
    ToggleSpec(f, batch);
    ToggleSpec(once, batch);
    if batch in bs {
      WithoutNoDuplicates(bs, batch);
      WithoutSpec(bs, batch);
      var w := Without(bs, batch);
      assert SelectedBatches(once) == w;
      assert batch !in w;
      assert SelectedBatches(Merge(once, TogglePatch(once, batch))) == w + [batch];
    } else {
      assert SelectedBatches(once) == bs + [batch];
      WithoutSpec(bs + [batch], batch);
      KeepAppend(bs, [batch], (b: string) => b != batch);
      WithoutAbsent(bs, batch);
      assert Keep([batch], (b: string) => b != batch) == Keep([], (b: string) => b != batch) + [];
    }
  }

  /** Clearing leaves no batch selected and the button reading 'All batches'. */
  lemma ClearSpec(f: TaskFilter)
    ensures Merge(f, ClearPatch()).correlationIds.None?
    ensures DisplayText(Merge(f, ClearPatch())) == "All batches"
  {
  }

  /**
    The button reads 'All batches' exactly when no batch is selected (or the
    one selected batch bears that name); with more, it counts them.
  */
  lemma DisplayTextSpec(f: TaskFilter)
    ensures (DisplayText(f) == "All batches") <==>
              (SelectedBatches(f) == [] || SelectedBatches(f) == ["All batches"])
    ensures |SelectedBatches(f)| >= 2 ==> DisplayText(f) == Text.NatToString(|SelectedBatches(f)|) + " batches"
  {
    var bs := SelectedBatches(f);
    if |bs| == 1 {
      assert bs == [bs[0]];
    }
    if |bs| >= 2 {
      var n := Text.NatToString(|bs|);
      var t := n + " batches";
      assert t[0] == n[0] && '0' <= n[0] <= '9';
      assert t != "All batches" by {
        assert "All batches"[0] == 'A';
      }
    }
  }
}
