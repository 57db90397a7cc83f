/**
  The chips above the chat input for the selected tasks: the selection is
  bucketed by ultimate parent, and each bucket becomes one chip, a group
  chip when it holds more than one task. The chat's user message buckets its
  attached tasks the same way, with a different key.
*/
module TaskChips {
  import opened Wrappers
  import opened Tasks
  import opened LusidFilter
  import opened TaskStore

  /** The tasks sharing a key, in selection order. */
  datatype Bucket = Bucket(key: string, tasks: seq<Task>)

  /** `task.ultimateParentTask?.id || task.id`: an empty parent id falls back to the task's own id. */
  function ChipKey(t: Task): string {
    if t.ultimateParent.Some? && t.ultimateParent.value != "" then t.ultimateParent.value else t.id
  }

  /** The position of the bucket with a key, or -1. */
  function BucketIndex(bs: seq<Bucket>, key: string): (k: int)
    ensures -1 <= k < |bs|
    ensures k >= 0 ==> bs[k].key == key
    ensures k == -1 <==> forall i :: 0 <= i < |bs| ==> bs[i].key != key
  {
    if bs == [] then -1
    else var k := BucketIndex(bs[..|bs| - 1], key);
    if k >= 0 then k else if bs[|bs| - 1].key == key then |bs| - 1 else -1
  }

  /** One step of the `reduce`: the task pushed onto its key's bucket, a new bucket last when the key is new. */
  function Push(bs: seq<Bucket>, key: string, t: Task): seq<Bucket> {
    var k := BucketIndex(bs, key);
    if k == -1 then bs + [Bucket(key, [t])] else bs[k := Bucket(key, bs[k].tasks + [t])]
  }

  /** The buckets of `ts` under `keyOf`, in the order their keys first occur. */
  function Bucketed(ts: seq<Task>, keyOf: Task -> string): seq<Bucket> {
    if ts == [] then [] else Push(Bucketed(ts[..|ts| - 1], keyOf), keyOf(ts[|ts| - 1]), ts[|ts| - 1])
  }

  function KeyTest(keyOf: Task -> string, key: string): Task -> bool {
    t => keyOf(t) == key
  }

  /**
    `bs` buckets `ts`: the keys are distinct, each bucket holds exactly the
    tasks with its key in input order, and every task's key has a bucket.
  */
  ghost predicate BucketsOf(bs: seq<Bucket>, ts: seq<Task>, keyOf: Task -> string) {
    && (forall i, j :: 0 <= i < j < |bs| ==> bs[i].key != bs[j].key)
    && (forall i :: 0 <= i < |bs| ==> bs[i].tasks != [] && bs[i].tasks == Keep(ts, KeyTest(keyOf, bs[i].key)))
    && (forall t :: t in ts ==> BucketIndex(bs, keyOf(t)) >= 0)
  }

  lemma KeepNone(ts: seq<Task>, p: Task -> bool)
    requires forall t :: t in ts ==> !p(t)
    ensures Keep(ts, p) == []
  {
    if Keep(ts, p) != [] {
      KeepSpec(ts, p, Keep(ts, p)[0]);
    }
  }

  lemma PushPreserves(bs: seq<Bucket>, ts: seq<Task>, keyOf: Task -> string, t: Task)
    requires BucketsOf(bs, ts, keyOf)
    ensures BucketsOf(Push(bs, keyOf(t), t), ts + [t], keyOf)
  {
    var key := keyOf(t);
    var k := BucketIndex(bs, key);
    var r := Push(bs, key, t);
    forall i | 0 <= i < |r| ensures r[i].tasks != [] && r[i].tasks == Keep(ts + [t], KeyTest(keyOf, r[i].key)) {
      var test := KeyTest(keyOf, r[i].key);
      KeepAppend(ts, [t], test);
      assert Keep([t], test) == Keep([], test) + (if test(t) then [t] else []);
      if i == |bs| {
        forall u | u in ts ensures !test(u) {
          assert BucketIndex(bs, keyOf(u)) >= 0;
        }
        KeepNone(ts, test);
      }
    }
    forall u | u in ts + [t] ensures BucketIndex(r, keyOf(u)) >= 0 {
      if u in ts {
        var j := BucketIndex(bs, keyOf(u));
        assert r[j].key == keyOf(u);
      } else {
        assert r[if k == -1 then |bs| else k].key == key;
      }
    }
  }

  lemma {:induction false} BucketedSpec(ts: seq<Task>, keyOf: Task -> string)
    ensures BucketsOf(Bucketed(ts, keyOf), ts, keyOf)
  {
    if ts != [] {
      var init := ts[..|ts| - 1];
      BucketedSpec(init, keyOf);
      PushPreserves(Bucketed(init, keyOf), init, keyOf, ts[|ts| - 1]);
      assert init + [ts[|ts| - 1]] == ts;
    }
  }

  /**
    Every task lands in exactly one bucket, the one of its key; each bucket
    holds the tasks with its key in selection order, and none is empty.
  */
  lemma ExactlyOneBucket(ts: seq<Task>, keyOf: Task -> string, t: Task)
    requires t in ts
    ensures var bs := Bucketed(ts, keyOf);
            && (exists i :: 0 <= i < |bs| && t in bs[i].tasks)
            && (forall i, j :: 0 <= i < |bs| && 0 <= j < |bs| && t in bs[i].tasks && t in bs[j].tasks ==> i == j)
            && (forall i :: 0 <= i < |bs| ==> (t in bs[i].tasks <==> bs[i].key == keyOf(t)))
  {
    var bs := Bucketed(ts, keyOf);
    BucketedSpec(ts, keyOf);
    forall i | 0 <= i < |bs| ensures t in bs[i].tasks <==> bs[i].key == keyOf(t) {
      KeepSpec(ts, KeyTest(keyOf, bs[i].key), t);
    }
    var k := BucketIndex(bs, keyOf(t));
    assert 0 <= k < |bs| && t in bs[k].tasks;
    assert exists i :: 0 <= i < |Bucketed(ts, keyOf)| && t in Bucketed(ts, keyOf)[i].tasks;
  }

  /** The `reduce` over the selection (and the chat's `for...of` loop over attached tasks). */
  method BucketTasks(ts: seq<Task>, keyOf: Task -> string) returns (bs: seq<Bucket>)
    ensures bs == Bucketed(ts, keyOf)
  {
    bs := [];
    var i := 0;
    while i < |ts|
      invariant 0 <= i <= |ts|
      invariant bs == Bucketed(ts[..i], keyOf)
    {
      var t := ts[i];
      assert ts[..i + 1][..i] == ts[..i];
      var key := keyOf(t);
      var k := BucketIndex(bs, key);
      if k == -1 {
        bs := bs + [Bucket(key, [t])];
      } else {
        bs := bs[k := Bucket(key, bs[k].tasks + [t])];
      }
      i := i + 1;
    }
    assert ts[..i] == ts;
  }

  /** `tasks.find(t => t.id === key) || tasks[0]`. */
  function Representative(b: Bucket): (r: Task)
    requires b.tasks != []
    ensures r in b.tasks
  {
    var k := FirstWithId(b.tasks, b.key);
    if k >= 0 then b.tasks[k] else b.tasks[0]
  }

  function FirstWithId(ts: seq<Task>, id: string): (k: int)
    ensures -1 <= k < |ts|
  {
    if ts == [] then -1
    else if ts[0].id == id then 0
    else var k := FirstWithId(ts[1..], id); if k == -1 then -1 else k + 1
  }

  lemma {:induction false} FirstWithIdSpec(ts: seq<Task>, id: string)
    ensures FirstWithId(ts, id) >= 0 ==> ts[FirstWithId(ts, id)].id == id
    ensures FirstWithId(ts, id) == -1 <==> forall i :: 0 <= i < |ts| ==> ts[i].id != id
    ensures forall i :: 0 <= i < FirstWithId(ts, id) ==> ts[i].id != id
  {
    if ts != [] && ts[0].id != id {
      FirstWithIdSpec(ts[1..], id);
      assert forall i :: 1 <= i < |ts| ==> ts[i] == ts[1..][i - 1];
    }
  }

  /** The representative is the first member whose id is the key, or the first member when none is. */
  lemma RepresentativeSpec(b: Bucket)
    requires b.tasks != []
    ensures (exists i :: 0 <= i < |b.tasks| && b.tasks[i].id == b.key) ==>
              Representative(b).id == b.key &&
              exists i :: 0 <= i < |b.tasks| && b.tasks[i] == Representative(b) && forall j :: 0 <= j < i ==> b.tasks[j].id != b.key
    ensures (forall i :: 0 <= i < |b.tasks| ==> b.tasks[i].id != b.key) ==> Representative(b) == b.tasks[0]
  {
    FirstWithIdSpec(b.tasks, b.key);
  }

  /** A chip: a group chip with its representative and the number of tasks it stands for, or a single task. */
  datatype Chip = GroupChip(parent: Task, taskCount: nat) | TaskChip(task: Task)

  function ChipOf(b: Bucket): Chip
    requires b.tasks != []
  {
    if |b.tasks| > 1 then GroupChip(Representative(b), |b.tasks|) else TaskChip(b.tasks[0])
  }

  /** What `TaskChips` renders: nothing without a selection, else one chip per bucket, under a header counting the selection. */
  datatype ChipBar = ChipBar(headerCount: nat, chips: seq<Chip>)

  function ChipBarOf(selected: seq<Task>): (r: Option<ChipBar>)
    ensures r.None? <==> selected == []
  {
    if selected == [] then None
    else
      var bs := Bucketed(selected, ChipKey);
      BucketedSpec(selected, ChipKey);
      Some(ChipBar(|selected|, seq(|bs|, i requires 0 <= i < |bs| => ChipOf(bs[i]))))
  }

  /**
    The bar counts the selection and holds one chip per ultimate parent; a
    chip groups exactly when its bucket holds more than one task, and then
    shows the bucket's size.
  */
  lemma ChipBarSpec(selected: seq<Task>, i: nat)
    requires selected != [] && i < |Bucketed(selected, ChipKey)|
    ensures var bar := ChipBarOf(selected).value; var b := Bucketed(selected, ChipKey)[i];
            && bar.headerCount == |selected|
            && |bar.chips| == |Bucketed(selected, ChipKey)|
            && b.tasks == Keep(selected, KeyTest(ChipKey, b.key))
            && (bar.chips[i].GroupChip? <==> |b.tasks| > 1)
            && (bar.chips[i].GroupChip? ==> bar.chips[i].taskCount == |b.tasks| && bar.chips[i].parent in b.tasks)
            && (bar.chips[i].TaskChip? ==> b.tasks == [bar.chips[i].task])
  {
    BucketedSpec(selected, ChipKey);
    var b := Bucketed(selected, ChipKey)[i];
    if |b.tasks| == 1 {
      assert b.tasks == [b.tasks[0]];
    }
  }

  /** Removal one id at a time, as the chip's button and 'Clear all' call `removeSelectedTask`. */
  function RemoveEach(selected: seq<Task>, ids: seq<string>): seq<Task>
    decreases |ids|
  {
    if ids == [] then selected else RemoveEach(RemoveTask(selected, ids[0]), ids[1..])
  }

  function IdsOf(ts: seq<Task>): seq<string> {
    seq(|ts|, i requires 0 <= i < |ts| => ts[i].id)
  }

  /** Removing ids one at a time removes exactly the tasks carrying one of them. */
  lemma {:induction false} RemoveEachSpec(selected: seq<Task>, ids: seq<string>)
    ensures forall t :: t in RemoveEach(selected, ids) <==> t in selected && t.id !in ids
    decreases |ids|
  {
    if ids != [] {
      RemoveTaskSpec(selected, ids[0]);
      RemoveEachSpec(RemoveTask(selected, ids[0]), ids[1..]);
      assert forall x :: x in ids <==> x == ids[0] || x in ids[1..];
    }
  }

  /** An id is among a list's ids exactly when some task of the list carries it. */
  lemma IdsOfSpec(ts: seq<Task>, id: string)
    ensures id in IdsOf(ts) <==> exists u :: u in ts && u.id == id
  {
    if id in IdsOf(ts) {
      var i :| 0 <= i < |ts| && IdsOf(ts)[i] == id;
      assert ts[i] in ts;
    }
    if exists u :: u in ts && u.id == id {
      var u :| u in ts && u.id == id;
      var i :| 0 <= i < |ts| && ts[i] == u;
      assert IdsOf(ts)[i] == id;
    }
  }

  /** Removing a group chip drops every task of its bucket and keeps the other tasks. */
  lemma RemoveGroupChip(selected: seq<Task>, b: Bucket, t: Task)
    requires b in Bucketed(selected, ChipKey) && t in selected
    ensures t in RemoveEach(selected, IdsOf(b.tasks)) <==> forall u :: u in b.tasks ==> u.id != t.id
  {
    RemoveEachSpec(selected, IdsOf(b.tasks));
    IdsOfSpec(b.tasks, t.id);
  }

  /** 'Clear all' leaves nothing selected. */
  lemma ClearAllEmpties(selected: seq<Task>)
    ensures RemoveEach(selected, IdsOf(selected)) == []
  {
    RemoveEachSpec(selected, IdsOf(selected));
    var r := RemoveEach(selected, IdsOf(selected));
    if r != [] {
      IdsOfSpec(selected, r[0].id);
    }
  }

  // The single chip's label

  /** The value of the first field with a name, `undefined` when none has it. */
  function FieldValue(fields: seq<Field>, name: string): (r: Option<string>)
    ensures r.Some? ==> exists i :: 0 <= i < |fields| && fields[i].name == name && fields[i].value == r
    ensures (forall i :: 0 <= i < |fields| ==> fields[i].name != name) ==> r.None?
  {
    if fields == [] then None
    else if fields[0].name == name then fields[0].value
    else FieldValue(fields[1..], name)
  }

  /** A field value JavaScript treats as true. */
  function Shown(v: Option<string>): Option<string> {
    if v.Some? && v.value != "" then v else None
  }

  /** The parts a single chip shows: the portfolio and the ticker when set, the display name when neither is. */
  datatype ChipLabel = ChipLabel(portfolio: Option<string>, ticker: Option<string>, name: Option<string>)

  function LabelOf(t: Task): (r: ChipLabel)
    ensures r.name.Some? <==> r.portfolio.None? && r.ticker.None?
    ensures r.name.Some? ==> r.name.value == t.displayName
  {
    var portfolio := Shown(FieldValue(t.fields, "PortfolioCode"));
    var ticker := Shown(FieldValue(t.fields, "Ticker"));
    ChipLabel(portfolio, ticker, if portfolio.None? && ticker.None? then Some(t.displayName) else None)
  }

  /** The first field of a name wins: later fields of the same name are never shown. */
  lemma FieldValueFirst(fields: seq<Field>, name: string, extra: seq<Field>)
    requires exists i :: 0 <= i < |fields| && fields[i].name == name
    ensures FieldValue(fields + extra, name) == FieldValue(fields, name)
  {
    if fields[0].name != name {
      assert (fields + extra)[1..] == fields[1..] + extra;
      var i :| 0 <= i < |fields| && fields[i].name == name;
      assert fields[1..][i - 1].name == name;
      FieldValueFirst(fields[1..], name, extra);
    }
  }
}
