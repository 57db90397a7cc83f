/**
  The compact task context: the selected workflow tasks, as JSON dicts,
  rendered as a line-oriented `task_context:v1` block grouped by ultimate
  parent. Each group gives a `parent|` line and then, for each of its tasks,
  a `task|` line, an optional `fields:` line and an optional `meta:` line.
  `json.dumps` is a parameter.
*/
module TasksCompact {
  import opened Wrappers
  import opened Json
  import Text
  import Compact

  const Header := "task_context:v1"
  const EmptyContext := "task_context:v1\n(empty)"
  const NameLimit := 160
  const ShortLimit := 64
  const ValueLimit := 256

  /** `_as_str`: `None` is empty, scalars print as `str()` does, anything else as `json.dumps`. */
  function AsStr(v: Json, dumps: Json -> string): (r: string)
    ensures v.JNull? ==> r == ""
    ensures v.JStr? ==> r == v.s
  {
    match v
    case JNull => ""
    case JBool(_) => Str(v)
    case JInt(_) => Str(v)
    case JStr(s) => s
    case _ => dumps(v)
  }

  /** `d.get(key)`, which raises `AttributeError` on anything but a dict. */
  function DGet(d: Json, key: string): (r: Result<Json, Fault>)
    ensures r.Success? <==> d.JObj?
  {
    if d.JObj? then Success(Get(d.fields, key, JNull)) else Failure(AttributeError)
  }

  /** The group key of a task: `(t.get("ultimateParentTask") or {}).get("id") or t.get("id")`, as text. */
  function GroupKey(t: Json, dumps: Json -> string): Result<string, Fault> {
    var up := DGet(t, "ultimateParentTask");
    if up.Failure? then Failure(up.error)
    else
      var pid := DGet(Or(up.value, JObj([])), "id");
      if pid.Failure? then Failure(pid.error)
      else Success(AsStr(Or(pid.value, Get(t.fields, "id", JNull)), dumps))
  }

  /** The group keys of the tasks, or the first exception raised computing one. */
  function KeysOf(ts: seq<Json>, dumps: Json -> string): (r: Result<seq<string>, Fault>)
    ensures r.Success? ==> |r.value| == |ts|
  {
    if ts == [] then Success([])
    else
      var n := |ts|;
      var init := KeysOf(ts[..n - 1], dumps);
      if init.Failure? then init
      else
        var k := GroupKey(ts[n - 1], dumps);
        if k.Failure? then Failure(k.error) else Success(init.value + [k.value])
  }

  /** A group of the `groups` dict: its key and its tasks. */
  datatype Group = Group(key: string, members: seq<Json>)

  /** `groups.setdefault(key, []).append(t)`: an existing key keeps its place, a new key goes last. */
  function AddTo(gs: seq<Group>, key: string, t: Json): seq<Group> {
    if gs == [] then [Group(key, [t])]
    else if gs[0].key == key then [Group(key, gs[0].members + [t])] + gs[1..]
    else [gs[0]] + AddTo(gs[1..], key, t)
  }

  /** The groups of tasks `ts` under keys `ks`, one key per task. */
  function GroupAll(ks: seq<string>, ts: seq<Json>): seq<Group>
    requires |ks| == |ts|
  {
    if ts == [] then []
    else
      var n := |ts|;
      AddTo(GroupAll(ks[..n - 1], ts[..n - 1]), ks[n - 1], ts[n - 1])
  }

  /** `_group_by_ultimate_parent`. */
  function GroupsOf(ts: seq<Json>, dumps: Json -> string): Result<seq<Group>, Fault> {
    var ks := KeysOf(ts, dumps);
    if ks.Failure? then Failure(ks.error) else Success(GroupAll(ks.value, ts))
  }

  function GroupKeys(gs: seq<Group>): (r: seq<string>)
    ensures |r| == |gs|
  {
    if gs == [] then [] else [gs[0].key] + GroupKeys(gs[1..])
  }

  /** The tasks of the group with key `key`, if there is one. */
  function MembersOf(gs: seq<Group>, key: string): seq<Json> {
    if gs == [] then [] else if gs[0].key == key then gs[0].members else MembersOf(gs[1..], key)
  }

  /** The number of tasks over all groups. */
  function Total(gs: seq<Group>): nat {
    if gs == [] then 0 else |gs[0].members| + Total(gs[1..])
  }

  /** The keys in order of first appearance. */
  function Dedup(ks: seq<string>): seq<string> {
    if ks == [] then []
    else
      var n := |ks|;
      var d := Dedup(ks[..n - 1]);
      if ks[n - 1] in d then d else d + [ks[n - 1]]
  }

  /** The tasks whose key is `key`, in input order. */
  function Select(ks: seq<string>, ts: seq<Json>, key: string): seq<Json>
    requires |ks| == |ts|
  {
    if ts == [] then []
    else
      var n := |ts|;
      Select(ks[..n - 1], ts[..n - 1], key) + (if ks[n - 1] == key then [ts[n - 1]] else [])
  }

  lemma {:induction false} AddToKeys(gs: seq<Group>, key: string, t: Json)
    ensures GroupKeys(AddTo(gs, key, t)) == if key in GroupKeys(gs) then GroupKeys(gs) else GroupKeys(gs) + [key]
  {
    if gs != [] && gs[0].key != key {
      AddToKeys(gs[1..], key, t);
      var r := AddTo(gs[1..], key, t);
      assert ([gs[0]] + r)[1..] == r;
      assert key in GroupKeys(gs) <==> key in GroupKeys(gs[1..]);
    } else if gs != [] {
      assert ([Group(key, gs[0].members + [t])] + gs[1..])[1..] == gs[1..];
    }
  }

  lemma {:induction false} AddToMembers(gs: seq<Group>, key: string, t: Json, k: string)
    ensures MembersOf(AddTo(gs, key, t), k) == MembersOf(gs, k) + (if k == key then [t] else [])
  {
    if gs != [] && gs[0].key != key {
      AddToMembers(gs[1..], key, t, k);
      var r := AddTo(gs[1..], key, t);
      assert ([gs[0]] + r)[1..] == r;
    } else if gs != [] {
      assert ([Group(key, gs[0].members + [t])] + gs[1..])[1..] == gs[1..];
    }
  }

  lemma {:induction false} AddToTotal(gs: seq<Group>, key: string, t: Json)
    ensures Total(AddTo(gs, key, t)) == Total(gs) + 1
  {
    if gs != [] && gs[0].key != key {
      AddToTotal(gs[1..], key, t);
      var r := AddTo(gs[1..], key, t);
      assert ([gs[0]] + r)[1..] == r;
    } else if gs != [] {
      assert ([Group(key, gs[0].members + [t])] + gs[1..])[1..] == gs[1..];
    }
  }

  lemma {:induction false} AddToNonEmpty(gs: seq<Group>, key: string, t: Json)
    requires forall i :: 0 <= i < |gs| ==> gs[i].members != []
    ensures forall i :: 0 <= i < |AddTo(gs, key, t)| ==> AddTo(gs, key, t)[i].members != []
  {
    if gs != [] && gs[0].key != key {
      AddToNonEmpty(gs[1..], key, t);
    }
  }

  /** The groups' keys are the task keys in order of first appearance. */
  lemma {:induction false} GroupKeysSpec(ks: seq<string>, ts: seq<Json>)
    requires |ks| == |ts|
    ensures GroupKeys(GroupAll(ks, ts)) == Dedup(ks)
  {
    if ts != [] {
      var n := |ts|;
      var gs := GroupAll(ks[..n - 1], ts[..n - 1]);
      GroupKeysSpec(ks[..n - 1], ts[..n - 1]);
      AddToKeys(gs, ks[n - 1], ts[n - 1]);
      assert GroupAll(ks, ts) == AddTo(gs, ks[n - 1], ts[n - 1]);
      assert Dedup(ks) == if ks[n - 1] in Dedup(ks[..n - 1]) then Dedup(ks[..n - 1]) else Dedup(ks[..n - 1]) + [ks[n - 1]];
    }
  }

  /** Each group holds exactly the tasks with its key, in input order. */
  lemma {:induction false} GroupMembersSpec(ks: seq<string>, ts: seq<Json>, key: string)
    requires |ks| == |ts|
    ensures MembersOf(GroupAll(ks, ts), key) == Select(ks, ts, key)
  {
    if ts != [] {
      var n := |ts|;
      GroupMembersSpec(ks[..n - 1], ts[..n - 1], key);
      AddToMembers(GroupAll(ks[..n - 1], ts[..n - 1]), ks[n - 1], ts[n - 1], key);
    }
  }

  /** Every task lands in exactly one group, and no group is empty. */
  lemma {:induction false} GroupTotalSpec(ks: seq<string>, ts: seq<Json>)
    requires |ks| == |ts|
    ensures Total(GroupAll(ks, ts)) == |ts|
    ensures forall i :: 0 <= i < |GroupAll(ks, ts)| ==> GroupAll(ks, ts)[i].members != []
  {
    if ts != [] {
      var n := |ts|;
      GroupTotalSpec(ks[..n - 1], ts[..n - 1]);
      AddToTotal(GroupAll(ks[..n - 1], ts[..n - 1]), ks[n - 1], ts[n - 1]);
      AddToNonEmpty(GroupAll(ks[..n - 1], ts[..n - 1]), ks[n - 1], ts[n - 1]);
    }
  }

  /** A key appears once among the deduplicated keys, and exactly when it is some task's key. */
  lemma {:induction false} DedupSpec(ks: seq<string>)
    ensures forall k :: k in Dedup(ks) <==> k in ks
    ensures forall a, b :: 0 <= a < b < |Dedup(ks)| ==> Dedup(ks)[a] != Dedup(ks)[b]
  {
    if ks != [] {
      var n := |ks|;
      DedupSpec(ks[..n - 1]);
      assert ks == ks[..n - 1] + [ks[n - 1]];
    }
  }

  lemma KeysOfStep(ts: seq<Json>, dumps: Json -> string, i: nat)
    requires i < |ts| && KeysOf(ts[..i], dumps).Success?
    ensures GroupKey(ts[i], dumps).Failure? ==> KeysOf(ts[..i + 1], dumps) == Failure(GroupKey(ts[i], dumps).error)
    ensures GroupKey(ts[i], dumps).Success? ==>
              KeysOf(ts[..i + 1], dumps) == Success(KeysOf(ts[..i], dumps).value + [GroupKey(ts[i], dumps).value])
  {
    assert ts[..i + 1][..i] == ts[..i];
  }

  lemma {:induction false} KeysOfFailureStays(ts: seq<Json>, dumps: Json -> string, i: nat)
    requires i <= |ts| && KeysOf(ts[..i], dumps).Failure?
    ensures KeysOf(ts, dumps) == KeysOf(ts[..i], dumps)
    decreases |ts| - i
  {
    if i < |ts| {
      var n := |ts|;
      assert ts[..n - 1][..i] == ts[..i];
      KeysOfFailureStays(ts[..n - 1], dumps, i);
    } else {
      assert ts[..i] == ts;
    }
  }

  lemma GroupAllStep(ks: seq<string>, ts: seq<Json>, k: string, i: nat)
    requires |ks| == i < |ts|
    ensures GroupAll(ks + [k], ts[..i + 1]) == AddTo(GroupAll(ks, ts[..i]), k, ts[i])
  {
    assert (ks + [k])[..|ks|] == ks;
    assert ts[..i + 1][..i] == ts[..i];
  }

  /** The grouping loop: each task is appended to the group of its key, created on first sight. */
  method GroupByUltimateParent(ts: seq<Json>, dumps: Json -> string) returns (r: Result<seq<Group>, Fault>)
    ensures r == GroupsOf(ts, dumps)
  {
    var groups: seq<Group> := [];
    ghost var keys: seq<string> := [];
    for i := 0 to |ts|
      invariant KeysOf(ts[..i], dumps) == Success(keys)
      invariant groups == GroupAll(keys, ts[..i])
    {
      var key := GroupKey(ts[i], dumps);
      KeysOfStep(ts, dumps, i);
      if key.Failure? {
        KeysOfFailureStays(ts, dumps, i + 1);
        return Failure(key.error);
      }
      GroupAllStep(keys, ts, key.value, i);
      groups := AddTo(groups, key.value, ts[i]);
      keys := keys + [key.value];
    }
    assert ts[..|ts|] == ts;
    r := Success(groups);
  }

  // Rendering

  const StateLabel := "state:"
  const CreatedLabel := "created:"
  const ChildrenLabel := "children:"
  const CorrLabel := "corr:"
  const TerminalLabel := "terminal:"
  const StackLabel := "stack:"
  const FieldsPrefix := "fields: "
  const MetaPrefix := "meta: "
  const Separator := " | "

  /** `_as_str(((t.get("version") or {}).get("asAtCreated")) or "")`. */
  function Created(t: Json, dumps: Json -> string): Result<string, Fault> {
    var v := DGet(t, "version");
    if v.Failure? then Failure(v.error)
    else
      var c := DGet(Or(v.value, JObj([])), "asAtCreated");
      if c.Failure? then Failure(c.error) else Success(AsStr(Or(c.value, JStr("")), dumps))
  }

  /** The texts of the values other than `None`, in order. */
  function NonNullStrs(cs: seq<Json>, dumps: Json -> string): (r: seq<string>)
    ensures |r| <= |cs|
  {
    if cs == [] then []
    else
      var n := |cs|;
      NonNullStrs(cs[..n - 1], dumps) + (if cs[n - 1].JNull? then [] else [AsStr(cs[n - 1], dumps)])
  }

  /** `[_as_str(c) for c in (t.get("correlationIds") or []) if c is not None]`. */
  function CorrIds(t: Json, dumps: Json -> string): Result<seq<string>, Fault> {
    var c := DGet(t, "correlationIds");
    if c.Failure? then Failure(c.error)
    else
      var it := Iter(Or(c.value, JArr([])));
      if it.Failure? then Failure(it.error) else Success(NonNullStrs(it.value, dumps))
  }

  datatype ParentMeta = ParentMeta(id: string, name: string, state: string, corr: seq<string>)

  /** `_parent_meta`: the creation instant is computed too, though not returned, and may raise. */
  function ParentMetaOf(task: Json, dumps: Json -> string): Result<ParentMeta, Fault> {
    if !task.JObj? then Failure(AttributeError)
    else
      var created := Created(task, dumps);
      if created.Failure? then Failure(created.error)
      else
        var corr := CorrIds(task, dumps);
        if corr.Failure? then Failure(corr.error)
        else
          var f := task.fields;
          Success(ParentMeta(AsStr(Get(f, "id", JNull), dumps), AsStr(Get(f, "taskDefinitionDisplayName", JNull), dumps),
                             AsStr(Get(f, "state", JNull), dumps), corr.value))
  }

  /** The first of `ms` whose id reads as `key`, else `default`. */
  function FirstWithId(key: string, ms: seq<Json>, default: Json, dumps: Json -> string): Result<Json, Fault> {
    if ms == [] then Success(default)
    else if !ms[0].JObj? then Failure(AttributeError)
    else if AsStr(Get(ms[0].fields, "id", JNull), dumps) == key then Success(ms[0])
    else FirstWithId(key, ms[1..], default, dumps)
  }

  /** `next((t for t in members if _as_str(t.get("id")) == key), members[0])`; the default is evaluated first. */
  function Representative(key: string, members: seq<Json>, dumps: Json -> string): Result<Json, Fault> {
    if members == [] then Failure(IndexError) else FirstWithId(key, members, members[0], dumps)
  }

  /** The parts of a group's `parent|` line. */
  function ParentParts(key: string, members: seq<Json>, dumps: Json -> string): Result<seq<string>, Fault> {
    var rep := Representative(key, members, dumps);
    if rep.Failure? then Failure(rep.error)
    else
      var meta := ParentMetaOf(rep.value, dumps);
      if meta.Failure? then Failure(meta.error)
      else
        var created := Created(rep.value, dumps);
        if created.Failure? then Failure(created.error)
        else
          var m := meta.value;
          Success(["parent", m.id, Text.Truncate(m.name, NameLimit),
                   StateLabel + Text.Truncate(m.state, ShortLimit),
                   CreatedLabel + Text.Truncate(created.value, ShortLimit),
                   ChildrenLabel + Text.NatToString(if |members| >= 1 then |members| - 1 else 0),
                   CorrLabel + Text.Join(m.corr, ",")])
  }

  /** The parts of a task's `task|` line. */
  function TaskParts(t: Json, dumps: Json -> string): Result<seq<string>, Fault> {
    if !t.JObj? then Failure(AttributeError)
    else
      var created := Created(t, dumps);
      if created.Failure? then Failure(created.error)
      else
        var corr := CorrIds(t, dumps);
        if corr.Failure? then Failure(corr.error)
        else
          var f := t.fields;
          Success(["task", AsStr(Get(f, "id", JNull), dumps),
                   Text.Truncate(AsStr(Get(f, "taskDefinitionDisplayName", JNull), dumps), NameLimit),
                   StateLabel + Text.Truncate(AsStr(Get(f, "state", JNull), dumps), ShortLimit),
                   CreatedLabel + Text.Truncate(created.value, ShortLimit),
                   TerminalLabel + AsStr(Get(f, "terminalState", JNull), dumps),
                   StackLabel + Text.Truncate(AsStr(Or(Get(f, "stackingKey", JNull), JStr("")), dumps), ShortLimit),
                   CorrLabel + Text.Join(corr.value, ",")])
  }

  /** The `name=value` pair of a field with a non-empty name; `(f or {}).get` raises on a non-dict. */
  function FieldPair(f: Json, dumps: Json -> string): Result<Option<string>, Fault> {
    var d := Or(f, JObj([]));
    if !d.JObj? then Failure(AttributeError)
    else
      var name := AsStr(Get(d.fields, "name", JNull), dumps);
      if name != "" then Success(Some(name + "=" + Text.Truncate(AsStr(Get(d.fields, "value", JNull), dumps), ValueLimit)))
      else Success(None)
  }

  function FieldPairOf(dumps: Json -> string): Json -> Result<Option<string>, Fault> {
    f => FieldPair(f, dumps)
  }

  /** The `fields:` line, when `fields` is a non-empty list with some named field. */
  function FieldsLine(t: seq<(string, Json)>, dumps: Json -> string): Result<Option<string>, Fault> {
    var fields := Or(Get(t, "fields", JNull), JArr([]));
    if fields.JArr? && fields.items != [] then
      var kv := Compact.CollectLines(fields.items, FieldPairOf(dumps));
      if kv.Failure? then Failure(kv.error)
      else if kv.value == [] then Success(None)
      else Success(Some(FieldsPrefix + Text.Join(kv.value, Separator)))
    else Success(None)
  }

  const MetaKeys := ["asAtLastTransition", "actionLogIdCreated", "actionLogIdModified", "actionLogIdSubmitted"]
  const VersionKeys := ["asAtModified", "userIdCreated", "userIdModified", "asAtVersionNumber"]

  /** `meta[f"version.{k}"] = version.get(k)` for the keys whose value is not `None`. */
  function VersionMeta(version: seq<(string, Json)>, keys: seq<string>): seq<(string, Json)> {
    if keys == [] then []
    else
      var v := Get(version, keys[0], JNull);
      (if v.JNull? then [] else [("version." + keys[0], v)]) + VersionMeta(version, keys[1..])
  }

  /** The `meta` dict of a task, `None` values included. */
  function Meta(t: seq<(string, Json)>): seq<(string, Json)> {
    var base := seq(|MetaKeys|, i requires 0 <= i < |MetaKeys| => (MetaKeys[i], Get(t, MetaKeys[i], JNull)));
    var version := VersionOf(t);
    if version.JObj? then base + VersionMeta(version.fields, VersionKeys) else base
  }

  /** `t.get("version") or {}`. */
  function VersionOf(t: seq<(string, Json)>): Json {
    Or(Get(t, "version", JNull), JObj([]))
  }

  /** The entries whose value is not `None`. */
  function NonNull(d: seq<(string, Json)>): seq<(string, Json)> {
    if d == [] then [] else (if d[0].1.JNull? then [] else [d[0]]) + NonNull(d[1..])
  }

  /** `_kv_pairs`: `k=v` for each entry whose value is not `None`, the value truncated. */
  function KvPairs(d: seq<(string, Json)>, dumps: Json -> string): seq<string> {
    if d == [] then []
    else (if d[0].1.JNull? then [] else [d[0].0 + "=" + Text.Truncate(AsStr(d[0].1, dumps), ValueLimit)]) + KvPairs(d[1..], dumps)
  }

  function MetaLine(t: seq<(string, Json)>, dumps: Json -> string): Option<string> {
    var kv := KvPairs(NonNull(Meta(t)), dumps);
    if kv == [] then None else Some(MetaPrefix + Text.Join(kv, Separator))
  }

  /** The lines of one task: its `task|` line, then its `fields:` and `meta:` lines when present. */
  function TaskBlock(t: Json, dumps: Json -> string): Result<seq<string>, Fault> {
    var parts := TaskParts(t, dumps);
    if parts.Failure? then Failure(parts.error)
    else
      var fields := FieldsLine(t.fields, dumps);
      if fields.Failure? then Failure(fields.error)
      else Success([Text.Join(parts.value, "|")] + Compact.OptLine(fields.value) + Compact.OptLine(MetaLine(t.fields, dumps)))
  }

  function TaskBlockOf(dumps: Json -> string): Json -> Result<seq<string>, Fault> {
    t => TaskBlock(t, dumps)
  }

  /** The blocks of `xs`, concatenated in order, or the first exception raised. */
  function ConcatAll<T>(xs: seq<T>, f: T -> Result<seq<string>, Fault>): Result<seq<string>, Fault> {
    if xs == [] then Success([])
    else
      var n := |xs|;
      var init := ConcatAll(xs[..n - 1], f);
      if init.Failure? then init
      else
        var last := f(xs[n - 1]);
        if last.Failure? then last else Success(init.value + last.value)
  }

  /** The lines of one group: its `parent|` line, then the blocks of its tasks in order. */
  function GroupBlock(g: Group, dumps: Json -> string): Result<seq<string>, Fault> {
    var parts := ParentParts(g.key, g.members, dumps);
    if parts.Failure? then Failure(parts.error)
    else
      var blocks := ConcatAll(g.members, TaskBlockOf(dumps));
      if blocks.Failure? then blocks else Success([Text.Join(parts.value, "|")] + blocks.value)
  }

  function GroupBlockOf(dumps: Json -> string): Group -> Result<seq<string>, Fault> {
    g => GroupBlock(g, dumps)
  }

  /** The lines of the context for a non-empty task list. */
  function ContextLines(ts: seq<Json>, dumps: Json -> string): Result<seq<string>, Fault> {
    var gs := GroupsOf(ts, dumps);
    if gs.Failure? then Failure(gs.error)
    else
      var body := ConcatAll(gs.value, GroupBlockOf(dumps));
      if body.Failure? then body else Success([Header] + body.value)
  }

  lemma ConcatAllStep<T>(xs: seq<T>, f: T -> Result<seq<string>, Fault>, i: nat)
    requires i < |xs| && ConcatAll(xs[..i], f).Success?
    ensures f(xs[i]).Failure? ==> ConcatAll(xs[..i + 1], f) == f(xs[i])
    ensures f(xs[i]).Success? ==> ConcatAll(xs[..i + 1], f) == Success(ConcatAll(xs[..i], f).value + f(xs[i]).value)
  {
    assert xs[..i + 1][..i] == xs[..i];
  }

  /** A successful concatenation is that of all but the last element, then the last block. */
  lemma ConcatAllLast<T>(xs: seq<T>, f: T -> Result<seq<string>, Fault>)
    requires xs != [] && ConcatAll(xs, f).Success?
    ensures ConcatAll(xs[..|xs| - 1], f).Success? && f(xs[|xs| - 1]).Success?
    ensures ConcatAll(xs, f).value == ConcatAll(xs[..|xs| - 1], f).value + f(xs[|xs| - 1]).value
  {
  }

  lemma {:induction false} ConcatAllFailureStays<T>(xs: seq<T>, f: T -> Result<seq<string>, Fault>, i: nat)
    requires i <= |xs| && ConcatAll(xs[..i], f).Failure?
    ensures ConcatAll(xs, f) == ConcatAll(xs[..i], f)
    decreases |xs| - i
  {
    if i < |xs| {
      var n := |xs|;
      assert xs[..n - 1][..i] == xs[..i];
      ConcatAllFailureStays(xs[..n - 1], f, i);
    } else {
      assert xs[..i] == xs;
    }
  }

  lemma FieldPairOfIs(dumps: Json -> string, f: Json)
    ensures FieldPairOf(dumps)(f) == FieldPair(f, dumps)
  {
  }

  /** The field loop: a pair per named field, in order. */
  method FieldPairs(fields: seq<Json>, dumps: Json -> string) returns (r: Result<seq<string>, Fault>)
    ensures r == Compact.CollectLines(fields, FieldPairOf(dumps))
  {
    var kv: seq<string> := [];
    for i := 0 to |fields|
      invariant Compact.CollectLines(fields[..i], FieldPairOf(dumps)) == Success(kv)
    {
      var pair := FieldPair(fields[i], dumps);
      Compact.CollectLinesStep(fields, FieldPairOf(dumps), i);
      if pair.Failure? {
        Compact.CollectLinesFailureStays(fields, FieldPairOf(dumps), i + 1);
        return Failure(pair.error);
      }
      kv := kv + Compact.OptLine(pair.value);
    }
    assert fields[..|fields|] == fields;
    r := Success(kv);
  }

  /** The `fields:` line of a task, if any. */
  method FieldsLineOf(t: seq<(string, Json)>, dumps: Json -> string) returns (r: Result<Option<string>, Fault>)
    ensures r == FieldsLine(t, dumps)
  {
    var fields := Or(Get(t, "fields", JNull), JArr([]));
    r := Success(None);
    if fields.JArr? && fields.items != [] {
      var kv := FieldPairs(fields.items, dumps);
      if kv.Failure? {
        return Failure(kv.error);
      }
      if kv.value != [] {
        r := Success(Some(FieldsPrefix + Text.Join(kv.value, Separator)));
      }
    }
  }

  /** The lines of one task. */
  method TaskLines(t: Json, dumps: Json -> string) returns (r: Result<seq<string>, Fault>)
    ensures r == TaskBlock(t, dumps)
  {
    var parts := TaskParts(t, dumps);
    if parts.Failure? {
      return Failure(parts.error);
    }
    var fields := FieldsLineOf(t.fields, dumps);
    if fields.Failure? {
      return Failure(fields.error);
    }
    var meta := MetaLine(t.fields, dumps);
    r := Success([Text.Join(parts.value, "|")] + Compact.OptLine(fields.value) + Compact.OptLine(meta));
  }

  /** The lines of one group: the task loop. */
  method GroupLines(g: Group, dumps: Json -> string) returns (r: Result<seq<string>, Fault>)
    ensures r == GroupBlock(g, dumps)
  {
    var parts := ParentParts(g.key, g.members, dumps);
    if parts.Failure? {
      return Failure(parts.error);
    }
    var blocks: seq<string> := [];
    for j := 0 to |g.members|
      invariant ConcatAll(g.members[..j], TaskBlockOf(dumps)) == Success(blocks)
    {
      var block := TaskLines(g.members[j], dumps);
      ConcatAllStep(g.members, TaskBlockOf(dumps), j);
      if block.Failure? {
        ConcatAllFailureStays(g.members, TaskBlockOf(dumps), j + 1);
        return Failure(block.error);
      }
      blocks := blocks + block.value;
    }
    assert g.members[..|g.members|] == g.members;
    r := Success([Text.Join(parts.value, "|")] + blocks);
  }

  /** `build_compact_task_context`. */
  method BuildCompactTaskContext(tasks: Json, dumps: Json -> string) returns (r: Result<string, Fault>)
    ensures !tasks.JArr? || tasks.items == [] ==> r == Success(EmptyContext)
    ensures tasks.JArr? && tasks.items != [] ==>
              var lines := ContextLines(tasks.items, dumps);
              (r.Success? <==> lines.Success?) && (r.Success? ==> r.value == Text.Join(lines.value, "\n"))
                && (r.Failure? ==> r.error == lines.error)
  {
    if !tasks.JArr? || tasks.items == [] {
      return Success(EmptyContext);
    }
    var groups := GroupByUltimateParent(tasks.items, dumps);
    if groups.Failure? {
      return Failure(groups.error);
    }
    var body: seq<string> := [];
    for i := 0 to |groups.value|
      invariant ConcatAll(groups.value[..i], GroupBlockOf(dumps)) == Success(body)
    {
      var block := GroupLines(groups.value[i], dumps);
      ConcatAllStep(groups.value, GroupBlockOf(dumps), i);
      if block.Failure? {
        ConcatAllFailureStays(groups.value, GroupBlockOf(dumps), i + 1);
        return Failure(block.error);
      }
      body := body + block.value;
    }
    assert groups.value[..|groups.value|] == groups.value;
    r := Success(Text.Join([Header] + body, "\n"));
  }

  // What the context promises

  /** A successful context starts with the header line. */
  lemma ContextStartsWithHeader(ts: seq<Json>, dumps: Json -> string)
    requires ContextLines(ts, dumps).Success?
    ensures ContextLines(ts, dumps).value[0] == Header
    ensures Text.Join(ContextLines(ts, dumps).value, "\n")[..|Header|] == Header
  {
    Text.JoinHead(ContextLines(ts, dumps).value, "\n");
  }

  /** The grouping: keys in first-appearance order, each group exactly the tasks with its key in input order, none lost. */
  lemma GroupsOfSpec(ts: seq<Json>, dumps: Json -> string, key: string)
    requires GroupsOf(ts, dumps).Success?
    ensures KeysOf(ts, dumps).Success?
    ensures GroupKeys(GroupsOf(ts, dumps).value) == Dedup(KeysOf(ts, dumps).value)
    ensures MembersOf(GroupsOf(ts, dumps).value, key) == Select(KeysOf(ts, dumps).value, ts, key)
    ensures Total(GroupsOf(ts, dumps).value) == |ts|
    ensures forall i :: 0 <= i < |GroupsOf(ts, dumps).value| ==> GroupsOf(ts, dumps).value[i].members != []
  {
    var ks := KeysOf(ts, dumps).value;
    GroupKeysSpec(ks, ts);
    GroupMembersSpec(ks, ts, key);
    GroupTotalSpec(ks, ts);
  }

  /** With distinct keys, the members found for a group's key are that group's. */
  lemma {:induction false} MembersOfAt(gs: seq<Group>, k: nat)
    requires k < |gs|
    requires forall a, b :: 0 <= a < b < |gs| ==> gs[a].key != gs[b].key
    ensures MembersOf(gs, gs[k].key) == gs[k].members
  {
    if k > 0 {
      assert gs[0].key != gs[k].key;
      assert gs[1..][k - 1] == gs[k];
      MembersOfAt(gs[1..], k - 1);
    }
  }

  lemma {:induction false} GroupKeysAt(gs: seq<Group>, k: nat)
    requires k < |gs|
    ensures GroupKeys(gs)[k] == gs[k].key
  {
    if k > 0 {
      GroupKeysAt(gs[1..], k - 1);
    }
  }

  /** The `children:` count of a group is the number of its other tasks: those sharing its key, less one. */
  lemma ChildrenCount(ts: seq<Json>, dumps: Json -> string, k: nat)
    requires GroupsOf(ts, dumps).Success? && k < |GroupsOf(ts, dumps).value|
    requires var g := GroupsOf(ts, dumps).value[k]; ParentParts(g.key, g.members, dumps).Success?
    ensures var g := GroupsOf(ts, dumps).value[k];
            var n := |Select(KeysOf(ts, dumps).value, ts, g.key)|;
            n >= 1 && ParentParts(g.key, g.members, dumps).value[5] == ChildrenLabel + Text.NatToString(n - 1)
  {
    var gs := GroupsOf(ts, dumps).value;
    var g := gs[k];
    GroupsOfSpec(ts, dumps, g.key);
    DedupSpec(KeysOf(ts, dumps).value);
    forall a, b | 0 <= a < b < |gs| ensures gs[a].key != gs[b].key {
      GroupKeysAt(gs, a);
      GroupKeysAt(gs, b);
      assert Dedup(KeysOf(ts, dumps).value)[a] != Dedup(KeysOf(ts, dumps).value)[b];
    }
    MembersOfAt(gs, k);
  }

  lemma {:induction false} FirstWithIdMatch(key: string, ms: seq<Json>, default: Json, dumps: Json -> string, i: nat)
    requires i < |ms| && ms[i].JObj? && AsStr(Get(ms[i].fields, "id", JNull), dumps) == key
    requires forall j :: 0 <= j < i ==> ms[j].JObj? && AsStr(Get(ms[j].fields, "id", JNull), dumps) != key
    ensures FirstWithId(key, ms, default, dumps) == Success(ms[i])
  {
    if i > 0 {
      assert ms[0].JObj? && AsStr(Get(ms[0].fields, "id", JNull), dumps) != key;
      FirstWithIdMatch(key, ms[1..], default, dumps, i - 1);
    }
  }

  lemma {:induction false} FirstWithIdNone(key: string, ms: seq<Json>, default: Json, dumps: Json -> string)
    requires forall j :: 0 <= j < |ms| ==> ms[j].JObj? && AsStr(Get(ms[j].fields, "id", JNull), dumps) != key
    ensures FirstWithId(key, ms, default, dumps) == Success(default)
  {
    if ms != [] {
      assert ms[0].JObj? && AsStr(Get(ms[0].fields, "id", JNull), dumps) != key;
      FirstWithIdNone(key, ms[1..], default, dumps);
    }
  }

  /** The representative is the first member whose id is the group key, and otherwise the first member. */
  lemma RepresentativeSpec(key: string, members: seq<Json>, dumps: Json -> string, i: nat)
    requires forall j :: 0 <= j < |members| ==> members[j].JObj?
    requires i < |members|
    ensures AsStr(Get(members[i].fields, "id", JNull), dumps) == key &&
            (forall j :: 0 <= j < i ==> AsStr(Get(members[j].fields, "id", JNull), dumps) != key)
            ==> Representative(key, members, dumps) == Success(members[i])
    ensures (forall j :: 0 <= j < |members| ==> AsStr(Get(members[j].fields, "id", JNull), dumps) != key)
            ==> Representative(key, members, dumps) == Success(members[0])
  {
    if AsStr(Get(members[i].fields, "id", JNull), dumps) == key &&
       (forall j :: 0 <= j < i ==> AsStr(Get(members[j].fields, "id", JNull), dumps) != key) {
      FirstWithIdMatch(key, members, members[0], dumps, i);
    }
    if forall j :: 0 <= j < |members| ==> AsStr(Get(members[j].fields, "id", JNull), dumps) != key {
      FirstWithIdNone(key, members, members[0], dumps);
    }
  }

  // Counting the lines of each kind

  predicate StartsWith(l: string, p: string) {
    |l| >= |p| && l[..|p|] == p
  }

  const TaskTag := "task|"
  const ParentTag := "parent|"

  /** The number of lines starting with `p`. */
  function CountTagged(ls: seq<string>, p: string): nat {
    if ls == [] then 0 else CountTagged(ls[..|ls| - 1], p) + (if StartsWith(ls[|ls| - 1], p) then 1 else 0)
  }

  lemma {:induction false} CountTaggedAppend(a: seq<string>, b: seq<string>, p: string)
    ensures CountTagged(a + b, p) == CountTagged(a, p) + CountTagged(b, p)
    decreases |b|
  {
    if b == [] {
      assert a + b == a;
    } else {
      var n := |b|;
      assert (a + b)[..|a + b| - 1] == a + b[..n - 1];
      CountTaggedAppend(a, b[..n - 1], p);
    }
  }

  lemma CountTaggedOne(l: string, p: string)
    ensures CountTagged([l], p) == if StartsWith(l, p) then 1 else 0
  {
    assert [l][..0] == [];
  }

  /** A line whose first character differs from the tag's does not start with it. */
  lemma FirstCharDiffers(l: string, p: string)
    requires l != [] && p != [] && l[0] != p[0]
    ensures !StartsWith(l, p)
  {
    if |l| >= |p| {
      assert l[..|p|][0] == l[0];
    }
  }

  /** A line joined from parts led by `head` starts with `head` and the separator. */
  lemma JoinedStarts(parts: seq<string>, head: string)
    requires |parts| >= 2 && parts[0] == head
    ensures StartsWith(Text.Join(parts, "|"), head + "|")
    ensures Text.Join(parts, "|") != [] && (head != [] ==> Text.Join(parts, "|")[0] == head[0])
  {
    Text.JoinCons(head, parts[1..], "|");
    assert parts == [head] + parts[1..];
  }

  /** A task's block: a line led by `task|`, then at most a `fields:` line and a `meta:` line. */
  lemma TaskBlockShape(t: Json, dumps: Json -> string)
    requires TaskBlock(t, dumps).Success?
    ensures var parts := TaskParts(t, dumps);
            && parts.Success? && |parts.value| >= 2 && parts.value[0] == "task"
            && FieldsLine(t.fields, dumps).Success?
            && TaskBlock(t, dumps).value == [Text.Join(parts.value, "|")] + Compact.OptLine(FieldsLine(t.fields, dumps).value)
                                            + Compact.OptLine(MetaLine(t.fields, dumps))
  {
  }

  lemma FieldsLineStarts(t: seq<(string, Json)>, dumps: Json -> string)
    requires FieldsLine(t, dumps).Success? && FieldsLine(t, dumps).value.Some?
    ensures StartsWith(FieldsLine(t, dumps).value.value, FieldsPrefix)
  {
  }

  lemma MetaLineStarts(t: seq<(string, Json)>, dumps: Json -> string)
    requires MetaLine(t, dumps).Some?
    ensures StartsWith(MetaLine(t, dumps).value, MetaPrefix)
  {
  }

  /** A `task|` line followed by untagged lines holds one `task|` line and no `parent|` line. */
  lemma BlockTags(first: string, fields: Option<string>, meta: Option<string>)
    requires StartsWith(first, TaskTag)
    requires fields.Some? ==> StartsWith(fields.value, FieldsPrefix)
    requires meta.Some? ==> StartsWith(meta.value, MetaPrefix)
    ensures CountTagged([first] + Compact.OptLine(fields) + Compact.OptLine(meta), TaskTag) == 1
    ensures CountTagged([first] + Compact.OptLine(fields) + Compact.OptLine(meta), ParentTag) == 0
  {
    assert first[0] == TaskTag[0];
    FirstCharDiffers(first, ParentTag);
    CountTaggedOne(first, TaskTag);
    CountTaggedOne(first, ParentTag);
    OptLineUntagged(fields, FieldsPrefix);
    OptLineUntagged(meta, MetaPrefix);
    var f := Compact.OptLine(fields);
    var m := Compact.OptLine(meta);
    CountTaggedAppend([first], f, TaskTag);
    CountTaggedAppend([first] + f, m, TaskTag);
    CountTaggedAppend([first], f, ParentTag);
    CountTaggedAppend([first] + f, m, ParentTag);
  }

  /** A task's block holds one `task|` line and no `parent|` line. */
  lemma TaskBlockTags(t: Json, dumps: Json -> string)
    requires TaskBlock(t, dumps).Success?
    ensures CountTagged(TaskBlock(t, dumps).value, TaskTag) == 1
    ensures CountTagged(TaskBlock(t, dumps).value, ParentTag) == 0
  {
    TaskBlockShape(t, dumps);
    var parts := TaskParts(t, dumps).value;
    JoinedStarts(parts, "task");
    if FieldsLine(t.fields, dumps).value.Some? {
      FieldsLineStarts(t.fields, dumps);
    }
    if MetaLine(t.fields, dumps).Some? {
      MetaLineStarts(t.fields, dumps);
    }
    BlockTags(Text.Join(parts, "|"), FieldsLine(t.fields, dumps).value, MetaLine(t.fields, dumps));
  }

  /** A `fields:` or `meta:` line is neither a `task|` nor a `parent|` line. */
  lemma OptLineUntagged(l: Option<string>, prefix: string)
    requires prefix == FieldsPrefix || prefix == MetaPrefix
    requires l.Some? ==> StartsWith(l.value, prefix)
    ensures CountTagged(Compact.OptLine(l), TaskTag) == 0 && CountTagged(Compact.OptLine(l), ParentTag) == 0
  {
    if l.Some? {
      assert l.value[0] == prefix[0];
      FirstCharDiffers(l.value, TaskTag);
      FirstCharDiffers(l.value, ParentTag);
      CountTaggedOne(l.value, TaskTag);
      CountTaggedOne(l.value, ParentTag);
    }
  }

  /** A line differing from the tag at some position within the tag does not start with it. */
  lemma CharDiffers(l: string, p: string, i: nat)
    requires i < |l| && i < |p| && l[i] != p[i]
    ensures !StartsWith(l, p)
  {
    if |l| >= |p| {
      assert l[..|p|][i] == l[i];
    }
  }

  lemma {:induction false} TaskBlocksTags(ts: seq<Json>, dumps: Json -> string)
    requires ConcatAll(ts, TaskBlockOf(dumps)).Success?
    ensures CountTagged(ConcatAll(ts, TaskBlockOf(dumps)).value, TaskTag) == |ts|
    ensures CountTagged(ConcatAll(ts, TaskBlockOf(dumps)).value, ParentTag) == 0
  {
    if ts != [] {
      var n := |ts|;
      var f := TaskBlockOf(dumps);
      ConcatAllLast(ts, f);
      var init := ConcatAll(ts[..n - 1], f).value;
      var last := f(ts[n - 1]).value;
      TaskBlocksTags(ts[..n - 1], dumps);
      TaskBlockTags(ts[n - 1], dumps);
      CountTaggedAppend(init, last, TaskTag);
      CountTaggedAppend(init, last, ParentTag);
    }
  }

  /** A group's block holds one `parent|` line and one `task|` line per member. */
  lemma GroupBlockTags(g: Group, dumps: Json -> string)
    requires GroupBlock(g, dumps).Success?
    ensures CountTagged(GroupBlock(g, dumps).value, TaskTag) == |g.members|
    ensures CountTagged(GroupBlock(g, dumps).value, ParentTag) == 1
  {
    var parts := ParentParts(g.key, g.members, dumps).value;
    var first := Text.Join(parts, "|");
    var blocks := ConcatAll(g.members, TaskBlockOf(dumps)).value;
    JoinedStarts(parts, "parent");
    FirstCharDiffers(first, TaskTag);
    CountTaggedOne(first, TaskTag);
    CountTaggedOne(first, ParentTag);
    TaskBlocksTags(g.members, dumps);
    CountTaggedAppend([first], blocks, TaskTag);
    CountTaggedAppend([first], blocks, ParentTag);
  }

  lemma {:induction false} TotalSnoc(gs: seq<Group>, g: Group)
    ensures Total(gs + [g]) == Total(gs) + |g.members|
  {
    if gs != [] {
      assert (gs + [g])[1..] == gs[1..] + [g];
      TotalSnoc(gs[1..], g);
    }
  }

  lemma GroupBlocksTags(gs: seq<Group>, dumps: Json -> string)
    requires ConcatAll(gs, GroupBlockOf(dumps)).Success?
    ensures CountTagged(ConcatAll(gs, GroupBlockOf(dumps)).value, TaskTag) == Total(gs)
    ensures CountTagged(ConcatAll(gs, GroupBlockOf(dumps)).value, ParentTag) == |gs|
  {
    GroupBlocksTaskTags(gs, dumps);
    GroupBlocksParentTags(gs, dumps);
  }

  lemma {:induction false} GroupBlocksTaskTags(gs: seq<Group>, dumps: Json -> string)
    requires ConcatAll(gs, GroupBlockOf(dumps)).Success?
    ensures CountTagged(ConcatAll(gs, GroupBlockOf(dumps)).value, TaskTag) == Total(gs)
  {
    if gs != [] {
      var n := |gs|;
      var f := GroupBlockOf(dumps);
      ConcatAllLast(gs, f);
      var init := ConcatAll(gs[..n - 1], f).value;
      var last := f(gs[n - 1]).value;
      GroupBlocksTaskTags(gs[..n - 1], dumps);
      GroupBlockTags(gs[n - 1], dumps);
      CountTaggedAppend(init, last, TaskTag);
      TotalLast(gs);
    }
  }

  lemma TotalLast(gs: seq<Group>)
    requires gs != []
    ensures Total(gs) == Total(gs[..|gs| - 1]) + |gs[|gs| - 1].members|
  {
    var n := |gs|;
    TotalSnoc(gs[..n - 1], gs[n - 1]);
    assert gs[..n - 1] + [gs[n - 1]] == gs;
  }

  lemma {:induction false} GroupBlocksParentTags(gs: seq<Group>, dumps: Json -> string)
    requires ConcatAll(gs, GroupBlockOf(dumps)).Success?
    ensures CountTagged(ConcatAll(gs, GroupBlockOf(dumps)).value, ParentTag) == |gs|
  {
    if gs != [] {
      var n := |gs|;
      var f := GroupBlockOf(dumps);
      ConcatAllLast(gs, f);
      var init := ConcatAll(gs[..n - 1], f).value;
      var last := f(gs[n - 1]).value;
      GroupBlocksParentTags(gs[..n - 1], dumps);
      GroupBlockTags(gs[n - 1], dumps);
      CountTaggedAppend(init, last, ParentTag);
    }
  }

  /**
    The context holds exactly one `task|` line per input task, parents
    included, and one `parent|` line per distinct group key.
  */
  lemma ContextTags(ts: seq<Json>, dumps: Json -> string)
    requires ContextLines(ts, dumps).Success?
    ensures KeysOf(ts, dumps).Success?
    ensures CountTagged(ContextLines(ts, dumps).value, TaskTag) == |ts|
    ensures CountTagged(ContextLines(ts, dumps).value, ParentTag) == |Dedup(KeysOf(ts, dumps).value)|
  {
    ContextShape(ts, dumps);
    var gs := GroupsOf(ts, dumps).value;
    GroupsOfSpec(ts, dumps, "");
    GroupBlocksTags(gs, dumps);
    HeaderUntagged();
    var body := ConcatAll(gs, GroupBlockOf(dumps)).value;
    CountTaggedAppend([Header], body, TaskTag);
    CountTaggedAppend([Header], body, ParentTag);
  }

  lemma ContextShape(ts: seq<Json>, dumps: Json -> string)
    requires ContextLines(ts, dumps).Success?
    ensures GroupsOf(ts, dumps).Success? && ConcatAll(GroupsOf(ts, dumps).value, GroupBlockOf(dumps)).Success?
    ensures ContextLines(ts, dumps).value == [Header] + ConcatAll(GroupsOf(ts, dumps).value, GroupBlockOf(dumps)).value
  {
  }

  lemma HeaderUntagged()
    ensures CountTagged([Header], TaskTag) == 0 && CountTagged([Header], ParentTag) == 0
  {
    CharDiffers(Header, TaskTag, 4);
    FirstCharDiffers(Header, ParentTag);
    CountTaggedOne(Header, TaskTag);
    CountTaggedOne(Header, ParentTag);
  }

  // The fields and meta lines

  lemma {:induction false} CollectLinesEmpty(entries: seq<Json>, line: Json -> Result<Option<string>, Fault>)
    requires Compact.CollectLines(entries, line).Success?
    ensures forall i :: 0 <= i < |entries| ==> line(entries[i]).Success?
    ensures Compact.CollectLines(entries, line).value == [] <==> forall i :: 0 <= i < |entries| ==> line(entries[i]).value.None?
  {
    if entries != [] {
      var n := |entries|;
      var init := entries[..n - 1];
      CollectLinesEmpty(init, line);
      assert forall i :: 0 <= i < n - 1 ==> entries[i] == init[i];
    }
  }

  /** A field gives a pair exactly when its name reads as non-empty text; the value is cut to 256 characters. */
  lemma FieldPairSpec(f: Json, dumps: Json -> string)
    requires FieldPair(f, dumps).Success?
    ensures var d := Or(f, JObj([]));
            && d.JObj?
            && (FieldPair(f, dumps).value.Some? <==> AsStr(Get(d.fields, "name", JNull), dumps) != "")
            && (FieldPair(f, dumps).value.Some? ==>
                  var v := Text.Truncate(AsStr(Get(d.fields, "value", JNull), dumps), ValueLimit);
                  FieldPair(f, dumps).value.value == AsStr(Get(d.fields, "name", JNull), dumps) + "=" + v && |v| <= ValueLimit)
  {
    Text.TruncateSpec(AsStr(Get(Or(f, JObj([])).fields, "value", JNull), dumps), ValueLimit);
  }

  /** The `fields:` line appears exactly when `fields` is a list holding some field with a non-empty name. */
  lemma FieldsLineSpec(t: seq<(string, Json)>, dumps: Json -> string)
    requires FieldsLine(t, dumps).Success?
    ensures var fields := Or(Get(t, "fields", JNull), JArr([]));
            FieldsLine(t, dumps).value.Some? <==>
              fields.JArr? && exists i :: 0 <= i < |fields.items| && FieldPair(fields.items[i], dumps).Success? && FieldPair(fields.items[i], dumps).value.Some?
  {
    var fields := Or(Get(t, "fields", JNull), JArr([]));
    if fields.JArr? && fields.items != [] {
      CollectLinesEmpty(fields.items, FieldPairOf(dumps));
    }
  }

  lemma {:induction false} NonNullSpec(d: seq<(string, Json)>, e: (string, Json))
    ensures e in NonNull(d) <==> e in d && !e.1.JNull?
  {
    if d != [] {
      NonNullSpec(d[1..], e);
      assert d == [d[0]] + d[1..];
    }
  }

  lemma {:induction false} VersionMetaSpec(version: seq<(string, Json)>, keys: seq<string>, e: (string, Json))
    ensures e in VersionMeta(version, keys) <==>
              !e.1.JNull? && exists i :: 0 <= i < |keys| && e == ("version." + keys[i], Get(version, keys[i], JNull))
  {
    if keys != [] {
      VersionMetaSpec(version, keys[1..], e);
      if exists i :: 0 <= i < |keys| && e == ("version." + keys[i], Get(version, keys[i], JNull)) {
        var i :| 0 <= i < |keys| && e == ("version." + keys[i], Get(version, keys[i], JNull));
        if i > 0 {
          assert keys[1..][i - 1] == keys[i];
        }
      }
      if exists i :: 0 <= i < |keys[1..]| && e == ("version." + keys[1..][i], Get(version, keys[1..][i], JNull)) {
        var i :| 0 <= i < |keys[1..]| && e == ("version." + keys[1..][i], Get(version, keys[1..][i], JNull));
        assert keys[i + 1] == keys[1..][i];
      }
    }
  }

  /**
    The `meta:` entries are exactly the task's four log and transition keys
    and, when `version` is a dict, the four `version.*` keys, each only with
    a value other than `None`.
  */
  lemma MetaSpec(t: seq<(string, Json)>, e: (string, Json))
    ensures e in NonNull(Meta(t)) <==>
              !e.1.JNull? &&
              ((exists i :: 0 <= i < |MetaKeys| && e == (MetaKeys[i], Get(t, MetaKeys[i], JNull))) ||
               (VersionOf(t).JObj? && exists i :: 0 <= i < |VersionKeys| && e == ("version." + VersionKeys[i], Get(VersionOf(t).fields, VersionKeys[i], JNull))))
  {
    NonNullSpec(Meta(t), e);
    var base := seq(|MetaKeys|, i requires 0 <= i < |MetaKeys| => (MetaKeys[i], Get(t, MetaKeys[i], JNull)));
    if VersionOf(t).JObj? {
      VersionMetaSpec(VersionOf(t).fields, VersionKeys, e);
      assert Meta(t) == base + VersionMeta(VersionOf(t).fields, VersionKeys);
    }
    if e in base {
      var i :| 0 <= i < |base| && base[i] == e;
    }
    if exists i :: 0 <= i < |MetaKeys| && e == (MetaKeys[i], Get(t, MetaKeys[i], JNull)) {
      var i :| 0 <= i < |MetaKeys| && e == (MetaKeys[i], Get(t, MetaKeys[i], JNull));
      assert base[i] == e;
    }
  }

  /** `_kv_pairs`: one `k=v` per entry with a value, in order, the value cut to 256 characters; filtering again changes nothing. */
  lemma KvPairsSpec(d: seq<(string, Json)>, dumps: Json -> string, i: nat)
    requires i < |NonNull(d)|
    ensures |KvPairs(d, dumps)| == |NonNull(d)|
    ensures KvPairs(d, dumps)[i] == NonNull(d)[i].0 + "=" + Text.Truncate(AsStr(NonNull(d)[i].1, dumps), ValueLimit)
    ensures KvPairs(NonNull(d), dumps) == KvPairs(d, dumps)
  {
    KvPairsLength(d, dumps);
    NonNullValues(d);
    KvPairsAt(NonNull(d), dumps, i);
  }

  lemma {:induction false} NonNullValues(d: seq<(string, Json)>)
    ensures forall k :: 0 <= k < |NonNull(d)| ==> !NonNull(d)[k].1.JNull?
  {
    if d != [] {
      NonNullValues(d[1..]);
    }
  }

  lemma {:induction false} KvPairsAt(c: seq<(string, Json)>, dumps: Json -> string, i: nat)
    requires i < |c| && forall k :: 0 <= k < |c| ==> !c[k].1.JNull?
    ensures |KvPairs(c, dumps)| >= i + 1
    ensures KvPairs(c, dumps)[i] == c[i].0 + "=" + Text.Truncate(AsStr(c[i].1, dumps), ValueLimit)
  {
    if i > 0 {
      KvPairsAt(c[1..], dumps, i - 1);
    }
  }

  lemma {:induction false} KvPairsLength(d: seq<(string, Json)>, dumps: Json -> string)
    ensures |KvPairs(d, dumps)| == |NonNull(d)|
    ensures KvPairs(NonNull(d), dumps) == KvPairs(d, dumps)
  {
    if d != [] {
      KvPairsLength(d[1..], dumps);
      if !d[0].1.JNull? {
        var n := NonNull(d);
        assert n == [d[0]] + NonNull(d[1..]);
        assert n[0] == d[0] && n[1..] == NonNull(d[1..]);
      } else {
        assert NonNull(d) == [] + NonNull(d[1..]) == NonNull(d[1..]);
      }
    }
  }

  /** The `meta:` line appears exactly when some meta entry has a value. */
  lemma MetaLineSpec(t: seq<(string, Json)>, dumps: Json -> string)
    ensures MetaLine(t, dumps).Some? <==> NonNull(Meta(t)) != []
  {
    KvPairsLength(NonNull(Meta(t)), dumps);
    NonNullIdempotent(Meta(t));
  }

  lemma {:induction false} NonNullIdempotent(d: seq<(string, Json)>)
    ensures NonNull(NonNull(d)) == NonNull(d)
  {
    if d != [] {
      NonNullIdempotent(d[1..]);
      if !d[0].1.JNull? {
        var n := NonNull(d);
        assert n == [d[0]] + NonNull(d[1..]);
        assert n[0] == d[0] && n[1..] == NonNull(d[1..]);
      } else {
        assert NonNull(d) == [] + NonNull(d[1..]) == NonNull(d[1..]);
      }
    }
  }

  // Truncation bounds

  /** In a `task|` line the name is cut to 160 characters and the state, creation instant and stacking key to 64. */
  lemma TaskPartsBounds(t: Json, dumps: Json -> string)
    requires TaskParts(t, dumps).Success?
    ensures var p := TaskParts(t, dumps).value;
            && |p| == 8 && p[0] == "task"
            && |p[2]| <= NameLimit
            && |p[3]| <= |StateLabel| + ShortLimit
            && |p[4]| <= |CreatedLabel| + ShortLimit
            && |p[6]| <= |StackLabel| + ShortLimit
  {
    var f := t.fields;
    Text.TruncateSpec(AsStr(Get(f, "taskDefinitionDisplayName", JNull), dumps), NameLimit);
    Text.TruncateSpec(AsStr(Get(f, "state", JNull), dumps), ShortLimit);
    Text.TruncateSpec(Created(t, dumps).value, ShortLimit);
    Text.TruncateSpec(AsStr(Or(Get(f, "stackingKey", JNull), JStr("")), dumps), ShortLimit);
  }

  /** In a `parent|` line the name is cut to 160 characters and the state and creation instant to 64. */
  lemma ParentPartsBounds(key: string, members: seq<Json>, dumps: Json -> string)
    requires ParentParts(key, members, dumps).Success?
    ensures var p := ParentParts(key, members, dumps).value;
            && |p| == 7 && p[0] == "parent"
            && |p[2]| <= NameLimit
            && |p[3]| <= |StateLabel| + ShortLimit
            && |p[4]| <= |CreatedLabel| + ShortLimit
  {
    var rep := Representative(key, members, dumps).value;
    var m := ParentMetaOf(rep, dumps).value;
    Text.TruncateSpec(m.name, NameLimit);
    Text.TruncateSpec(m.state, ShortLimit);
    Text.TruncateSpec(Created(rep, dumps).value, ShortLimit);
  }
}
