/**
  The rows of the task panel: a group row (`TaskGroupItem`) with its root's
  state badge and a Select Group toggle, and a task row (`TaskItem`) with the
  task's state, its key fields and a Select toggle. Both toggles delegate to
  the store's selection functions.
*/
module TaskItems {
  import opened Wrappers
  import Text
  import opened Tasks
  import opened TaskStore
  import opened TaskChips

  // State badges and icons

  datatype Variant = Default | Secondary | Destructive | Outline
  datatype IconColour = Green | Yellow | Blue | Orange | Gray

  /** `getStateVariant`, the same in both rows. */
  function StateVariant(state: string): Variant {
    match Text.Lower(state)
    case "completed" => Default
    case "resolved" => Default
    case "inreview" => Secondary
    case "in review" => Secondary
    case "pending" => Outline
    case _ => Secondary
  }

  /** `getStateIcon` of the group row. */
  function GroupIcon(state: string): IconColour {
    match Text.Lower(state)
    case "completed" => Green
    case "inreview" => Yellow
    case "in review" => Yellow
    case "pending" => Blue
    case "resolved" => Green
    case "searching errors" => Orange
    case _ => Gray
  }

  /** `getStateIcon` of the task row: it has no case for 'searching errors'. */
  function ItemIcon(state: string): IconColour {
    match Text.Lower(state)
    case "completed" => Green
    case "inreview" => Yellow
    case "in review" => Yellow
    case "pending" => Blue
    case "resolved" => Green
    case _ => Gray
  }

  /**
    The badge depends only on the lower-cased state: completed and resolved
    are the default badge, pending the outlined one, and every other state,
    in review included, the secondary one; no state is destructive.
  */
  lemma VariantSpec(state: string, other: string)
    ensures StateVariant(state) == Default <==> Text.Lower(state) in {"completed", "resolved"}
    ensures StateVariant(state) == Outline <==> Text.Lower(state) == "pending"
    ensures StateVariant(state) == Secondary <==> Text.Lower(state) !in {"completed", "resolved", "pending"}
    ensures StateVariant(state) != Destructive
    ensures Text.Lower(state) == Text.Lower(other) ==> StateVariant(state) == StateVariant(other)
  {
  }

  /**
    The two rows' icons agree on every state except 'searching errors',
    which only the group row colours (orange); the icon is green exactly
    when the badge is the default one, and blue exactly when it is outlined.
  */
  lemma IconsAgree(state: string)
    ensures ItemIcon(state) == (if Text.Lower(state) == "searching errors" then Gray else GroupIcon(state))
    ensures GroupIcon(state) == Orange <==> Text.Lower(state) == "searching errors"
    ensures ItemIcon(state) != Orange
    ensures GroupIcon(state) == Green <==> StateVariant(state) == Default
    ensures GroupIcon(state) == Blue <==> StateVariant(state) == Outline
    ensures GroupIcon(state) == Yellow ==> StateVariant(state) == Secondary
  {
  }

  // Selection

  /** `selectedTasks.some(t => t.id === id)`. */
  predicate IsSelected(selected: seq<Task>, id: string) {
    exists t :: t in selected && t.id == id
  }

  /** `isGroupSelected`: the root and every child are selected, by id. */
  predicate IsGroupSelected(selected: seq<Task>, g: TaskGroup) {
    IsSelected(selected, g.ultimateParent.id) && forall c :: c in g.children ==> IsSelected(selected, c.id)
  }

  lemma IsSelectedIds(selected: seq<Task>, id: string)
    ensures IsSelected(selected, id) <==> id in Ids(selected)
  {
    if id in Ids(selected) {
      var t :| t in selected && t.id == id;
    }
  }

  /** A group reads as selected exactly when all of its ids are among the selected ids. */
  lemma GroupSelectedIds(selected: seq<Task>, g: TaskGroup)
    ensures IsGroupSelected(selected, g) <==> GroupIds(g) <= Ids(selected)
  {
    IsSelectedIds(selected, g.ultimateParent.id);
    forall c | c in g.children ensures IsSelected(selected, c.id) <==> c.id in Ids(selected) {
      IsSelectedIds(selected, c.id);
    }
    if GroupIds(g) <= Ids(selected) {
      forall c | c in g.children ensures IsSelected(selected, c.id) {
        assert c.id in Ids(g.children);
      }
    }
    if IsGroupSelected(selected, g) {
      forall id | id in GroupIds(g) ensures id in Ids(selected) {
        if id != g.ultimateParent.id {
          var c :| c in g.children && c.id == id;
        }
      }
    }
  }

  /** `handleGroupSelect`: the stored group removed when the group reads as selected, the group added otherwise. */
  function GroupToggled(selected: seq<Task>, groups: seq<TaskGroup>, g: TaskGroup): seq<Task> {
    if IsGroupSelected(selected, g) then RemoveGroup(selected, groups, g.ultimateParent.id) else AddGroup(selected, g)
  }

  /** After `addSelectedTaskGroup` the group reads as selected. */
  lemma AddGroupSelects(selected: seq<Task>, g: TaskGroup)
    ensures IsGroupSelected(AddGroup(selected, g), g)
  {
    var r := AddGroup(selected, g);
    AddGroupSpec(selected, g);
    var n := |g.children| + 1;
    assert r[|r| - n] == g.ultimateParent;
    forall c | c in g.children ensures IsSelected(r, c.id) {
      var i :| 0 <= i < |g.children| && g.children[i] == c;
      assert r[|r| - n + 1 + i] == c;
    }
  }

  /**
    Select Group on an unselected group selects it; on a selected group
    whose root the stored groups know, it unselects it; on a selected group
    the stored groups do not know, it changes nothing.
  */
  lemma GroupToggleSpec(selected: seq<Task>, groups: seq<TaskGroup>, g: TaskGroup)
    ensures !IsGroupSelected(selected, g) ==> IsGroupSelected(GroupToggled(selected, groups, g), g)
    ensures IsGroupSelected(selected, g) && FindGroup(groups, g.ultimateParent.id).Some? ==>
              !IsGroupSelected(GroupToggled(selected, groups, g), g)
    ensures IsGroupSelected(selected, g) && FindGroup(groups, g.ultimateParent.id).None? ==>
              GroupToggled(selected, groups, g) == selected
  {
    if !IsGroupSelected(selected, g) {
      AddGroupSelects(selected, g);
    } else {
      var id := g.ultimateParent.id;
      RemoveGroupSpec(selected, groups, id);
    }
  }

  /** What the group row's header shows. */
  datatype GroupHeader = GroupHeader(
    icon: IconColour, variant: Variant, childCount: Option<nat>, expandDisabled: bool, selectLabel: string)

  function GroupHeaderOf(selected: seq<Task>, g: TaskGroup): (h: GroupHeader)
    ensures h.expandDisabled <==> g.children == []
    ensures h.childCount.Some? <==> g.children != []
    ensures h.childCount.Some? ==> h.childCount.value == |g.children|
    ensures h.selectLabel == (if IsGroupSelected(selected, g) then "Selected" else "Select Group")
  {
    var root := g.ultimateParent;
    GroupHeader(
      GroupIcon(root.state), StateVariant(root.state),
      if |g.children| > 0 then Some(|g.children|) else None,
      |g.children| == 0,
      if IsGroupSelected(selected, g) then "Selected" else "Select Group")
  }

  /** `handleSelect` of a task row. */
  function TaskToggled(selected: seq<Task>, task: Task): seq<Task> {
    if IsSelected(selected, task.id) then RemoveTask(selected, task.id) else AddTask(selected, task)
  }

  /** Select flips the row's own selection and leaves every task of another id as it was. */
  lemma TaskToggleSpec(selected: seq<Task>, task: Task, other: Task)
    ensures IsSelected(TaskToggled(selected, task), task.id) <==> !IsSelected(selected, task.id)
    ensures other.id != task.id ==> (other in TaskToggled(selected, task) <==> other in selected)
  {
    RemoveTaskSpec(selected, task.id);
    AddTaskSpec(selected, task);
    var r := TaskToggled(selected, task);
    if !IsSelected(selected, task.id) {
      assert r[|r| - 1] in r;
    }
  }

  // A task row's details

  const ErrorPreviewLength := 60

  /** `ticker ? ticker + (name ? " (" + name + ")" : "") : name`, shown when either is set. */
  function InstrumentLine(ticker: Option<string>, name: Option<string>): Option<string> {
    if ticker.Some? then Some(ticker.value + if name.Some? then " (" + name.value + ")" else "")
    else name
  }

  /** The line reads "ticker (name)" with both, the one that is set with one, and is absent with neither. */
  lemma InstrumentLineSpec(ticker: string, name: string)
    requires ticker != "" && name != ""
    ensures InstrumentLine(Some(ticker), Some(name)) == Some(ticker + " (" + name + ")")
    ensures InstrumentLine(Some(ticker), None) == Some(ticker)
    ensures InstrumentLine(None, Some(name)) == Some(name)
    ensures InstrumentLine(None, None) == None
    ensures var line := InstrumentLine(Some(ticker), Some(name)).value;
            line[..|ticker|] == ticker && line[|line| - |name| - 1..|line| - 1] == name
  {
    assert ticker + "" == ticker;
    var line := ticker + " (" + name + ")";
    assert line == ticker + (" (" + name + ")");
    assert line[|line| - |name| - 1..|line| - 1] == (" (" + name + ")")[2..2 + |name|];
  }

  /** `String(error).substring(0, 60) + "..."`. */
  function ErrorPreview(error: string): (r: string)
    ensures |error| <= ErrorPreviewLength ==> r == error + "..."
    ensures |error| > ErrorPreviewLength ==> |r| == ErrorPreviewLength + 3 && r[..ErrorPreviewLength] == error[..ErrorPreviewLength]
    ensures r[|r| - 3..] == "..."
  {
    (if |error| <= ErrorPreviewLength then error else error[..ErrorPreviewLength]) + "..."
  }

  /** What a task row shows besides its name and state. */
  datatype ItemDetails = ItemDetails(
    icon: IconColour, variant: Variant, portfolio: Option<string>, instrument: Option<string>,
    error: Option<string>, selectLabel: string)

  function ItemDetailsOf(selected: seq<Task>, task: Task): ItemDetails {
    var portfolio := Shown(FieldValue(task.fields, "PortfolioCode"));
    var name := Shown(FieldValue(task.fields, "Name"));
    var ticker := Shown(FieldValue(task.fields, "Ticker"));
    var error := Shown(FieldValue(task.fields, "Error"));
    ItemDetails(
      ItemIcon(task.state), StateVariant(task.state), portfolio, InstrumentLine(ticker, name),
      if error.Some? then Some(ErrorPreview(error.value)) else None,
      if IsSelected(selected, task.id) then "Deselect" else "Select")
  }

  /**
    Each detail comes from the first field of its name and is shown only when
    that field's value is a non-empty text; the error shows as its preview.
  */
  lemma ItemDetailsSpec(selected: seq<Task>, task: Task, i: nat)
    requires i < |task.fields| && task.fields[i].name == "Error"
    requires forall j :: 0 <= j < i ==> task.fields[j].name != "Error"
    ensures var d := ItemDetailsOf(selected, task); var v := task.fields[i].value;
            && (d.error.Some? <==> v.Some? && v.value != "")
            && (d.error.Some? ==> d.error.value == ErrorPreview(v.value))
  {
    FieldValueAt(task.fields, "Error", i);
  }

  /** The value at the first field of a name. */
  lemma {:induction false} FieldValueAt(fields: seq<Field>, name: string, i: nat)
    requires i < |fields| && fields[i].name == name
    requires forall j :: 0 <= j < i ==> fields[j].name != name
    ensures FieldValue(fields, name) == fields[i].value
  {
    if i > 0 {
      FieldValueAt(fields[1..], name, i - 1);
    }
  }
}
