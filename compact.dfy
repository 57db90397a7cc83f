/**
  Compaction of tool results into the short text the model is shown: the
  catalog as `name|type|description` lines, an SQL result as its arguments,
  row count and pipe-delimited sample rows, and any other tool as its scalar
  entries. `json.dumps` is a parameter.
*/
module Compact {
  import opened Wrappers
  import opened Json
  import Text

  const CatalogTool := "catalog_get_fields"
  const SqlTool := "sql_execute"
  const DescriptionLimit := 160
  const CatalogHeaderPrefix := "tool: catalog_get_fields  table_like: "

  /** `(f.get(key) or "").strip()`, raising `AttributeError` when `f` is not an object or the value is not a string. */
  function FieldText(f: Json, key: string): Result<string, Fault> {
    if !f.JObj? then Failure(AttributeError)
    else
      var v := Or(Get(f.fields, key, JNull), JStr(""));
      if v.JStr? then Success(Text.Strip(v.s)) else Failure(AttributeError)
  }

  /** The line of one catalog entry, none when its three texts are empty. */
  function CatalogLine(f: Json): Result<Option<string>, Fault> {
    match FieldText(f, "FieldName")
    case Failure(e) => Failure(e)
    case Success(name) =>
      match FieldText(f, "DataType")
      case Failure(e) => Failure(e)
      case Success(dtype) =>
        match FieldText(f, "Description")
        case Failure(e) => Failure(e)
        case Success(desc) =>
          if name == "" && dtype == "" && desc == "" then Success(None)
          else Success(Some(name + "|" + dtype + "|" + Text.Truncate(desc, DescriptionLimit)))
  }

  function OptLine(l: Option<string>): seq<string> {
    if l.Some? then [l.value] else []
  }

  /** The lines `line` gives the entries, in order, or the first exception it raises. */
  function CollectLines(entries: seq<Json>, line: Json -> Result<Option<string>, Fault>): Result<seq<string>, Fault> {
    if entries == [] then Success([])
    else
      var n := |entries|;
      match CollectLines(entries[..n - 1], line)
      case Failure(e) => Failure(e)
      case Success(ls) =>
        match line(entries[n - 1])
        case Failure(e) => Failure(e)
        case Success(l) => Success(ls + OptLine(l))
  }

  /** The line for the first table whose `has_more` flag is truthy. */
  function HasMoreLine(flags: seq<(string, Json)>): Option<string> {
    if flags == [] then None
    else if Truthy(flags[0].1) then Some("has_more:" + flags[0].0)
    else HasMoreLine(flags[1..])
  }

  /** `result["schema"]["has_more"]`, each defaulting to `{}`; a truthy schema that is not an object raises. */
  function Flags(result: seq<(string, Json)>): Result<seq<(string, Json)>, Fault> {
    var schema := Or(Get(result, "schema", JNull), JObj([]));
    if !schema.JObj? then Failure(AttributeError)
    else
      var hasMore := Or(Get(schema.fields, "has_more", JNull), JObj([]));
      Success(if hasMore.JObj? then hasMore.fields else [])
  }

  function CatalogHeader(result: seq<(string, Json)>, args: seq<(string, Json)>): string {
    CatalogHeaderPrefix + Str(Or(Or(Get(result, "table_like", JNull), Get(args, "table_like", JNull)), JStr("")))
  }

  /** The lines `compact_catalog_get_fields` joins. */
  function CatalogText(result: seq<(string, Json)>, args: seq<(string, Json)>): Result<seq<string>, Fault> {
    match Iter(Or(Get(result, "catalog", JNull), JArr([])))
    case Failure(e) => Failure(e)
    case Success(entries) =>
      match CollectLines(entries, CatalogLine)
      case Failure(e) => Failure(e)
      case Success(ls) =>
        match Flags(result)
        case Failure(e) => Failure(e)
        case Success(flags) => Success([CatalogHeader(result, args)] + ls + OptLine(HasMoreLine(flags)))
  }

  /** `compact_catalog_get_fields`. */
  method CompactCatalogGetFields(result: seq<(string, Json)>, args: seq<(string, Json)>) returns (r: Result<string, Fault>)
    ensures r.Success? <==> CatalogText(result, args).Success?
    ensures r.Success? ==> r.value == Text.Join(CatalogText(result, args).value, "\n")
  {
    var catalog := Iter(Or(Get(result, "catalog", JNull), JArr([])));
    if catalog.Failure? {
      return Failure(catalog.error);
    }
    var entries := EntryLines(catalog.value);
    if entries.Failure? {
      return Failure(entries.error);
    }
    var flags := Flags(result);
    if flags.Failure? {
      return Failure(flags.error);
    }
    var more := FirstHasMore(flags.value);
    return Success(Text.Join([CatalogHeader(result, args)] + entries.value + OptLine(more), "\n"));
  }

  /** The loop over the catalog entries, appending one line per entry that has any text. */
  method EntryLines(entries: seq<Json>) returns (r: Result<seq<string>, Fault>)
    ensures r == CollectLines(entries, CatalogLine)
  {
    var lines := [];
    var i := 0;
    while i < |entries|
      invariant 0 <= i <= |entries|
      invariant CollectLines(entries[..i], CatalogLine) == Success(lines)
    {
      var line := CatalogLine(entries[i]);
      CollectLinesStep(entries, CatalogLine, i);
      if line.Failure? {
        CollectLinesFailureStays(entries, CatalogLine, i + 1);
        return Failure(line.error);
      }
      lines := lines + OptLine(line.value);
      i := i + 1;
    }
    assert entries[..i] == entries;
    return Success(lines);
  }

  /** The loop over the `has_more` flags, stopping at the first truthy one. */
  method FirstHasMore(flags: seq<(string, Json)>) returns (l: Option<string>)
    ensures l == HasMoreLine(flags)
  {
    var k := 0;
    while k < |flags|
      invariant 0 <= k <= |flags|
      invariant HasMoreLine(flags) == HasMoreLine(flags[k..])
    {
      if Truthy(flags[k].1) {
        return Some("has_more:" + flags[k].0);
      }
      assert flags[k..][1..] == flags[k + 1..];
      k := k + 1;
    }
    return None;
  }

  /** One more entry: its line appended, or its exception. */
  lemma CollectLinesStep(entries: seq<Json>, line: Json -> Result<Option<string>, Fault>, i: nat)
    requires i < |entries| && CollectLines(entries[..i], line).Success?
    ensures line(entries[i]).Failure? ==> CollectLines(entries[..i + 1], line) == Failure(line(entries[i]).error)
    ensures line(entries[i]).Success? ==>
              CollectLines(entries[..i + 1], line) == Success(CollectLines(entries[..i], line).value + OptLine(line(entries[i]).value))
  {
    assert entries[..i + 1][..i] == entries[..i];
  }

  /** Lines that raised on a prefix of the entries raise the same on all of them. */
  lemma {:induction false} CollectLinesFailureStays(entries: seq<Json>, line: Json -> Result<Option<string>, Fault>, i: nat)
    requires i <= |entries| && CollectLines(entries[..i], line).Failure?
    ensures CollectLines(entries, line) == CollectLines(entries[..i], line)
    decreases |entries| - i
  {
    if i < |entries| {
      var n := |entries|;
      assert entries[..n - 1][..i] == entries[..i];
      CollectLinesFailureStays(entries[..n - 1], line, i);
    } else {
      assert entries[..i] == entries;
    }
  }

  /** There is exactly one header, and it comes first. */
  lemma CatalogStartsWithHeader(result: seq<(string, Json)>, args: seq<(string, Json)>)
    requires CatalogText(result, args).Success?
    ensures var t := Text.Join(CatalogText(result, args).value, "\n"); var h := CatalogHeader(result, args);
            |t| >= |h| && t[..|h|] == h && h[..|CatalogHeaderPrefix|] == CatalogHeaderPrefix
  {
    Text.JoinHead(CatalogText(result, args).value, "\n");
  }

  /**
    An entry is skipped exactly when its three texts are empty; otherwise its
    line is `name|type|description` with the description cut to at most 160
    characters, and kept whole when it fits.
  */
  lemma CatalogLineSpec(f: Json)
    requires CatalogLine(f).Success?
    ensures var name := FieldText(f, "FieldName").value; var dtype := FieldText(f, "DataType").value;
            var desc := FieldText(f, "Description").value; var l := CatalogLine(f).value;
            && (l.None? <==> name == "" && dtype == "" && desc == "")
            && (l.Some? ==> exists d :: l.value == name + "|" + dtype + "|" + d && |d| <= DescriptionLimit && (|desc| <= DescriptionLimit ==> d == desc))
  {
    var desc := FieldText(f, "Description").value;
    Text.TruncateSpec(desc, DescriptionLimit);
  }

  /** Collected lines: at most one per entry, and exactly the entries' lines, in order, when none is skipped. */
  lemma {:induction false} CollectLinesSpec(entries: seq<Json>, line: Json -> Result<Option<string>, Fault>, k: nat)
    requires CollectLines(entries, line).Success?
    ensures |CollectLines(entries, line).value| <= |entries|
    ensures (forall e :: e in entries ==> line(e).Success? && line(e).value.Some?) ==>
              |CollectLines(entries, line).value| == |entries| &&
              (k < |entries| ==> CollectLines(entries, line).value[k] == line(entries[k]).value.value)
  {
    if entries != [] {
      var n := |entries|;
      var init := entries[..n - 1];
      CollectLinesSpec(init, line, k);
      if forall e :: e in entries ==> line(e).Success? && line(e).value.Some? {
        assert forall e :: e in init ==> e in entries;
        assert entries[n - 1] in entries;
        if k < n - 1 {
          assert init[k] == entries[k];
        }
      }
    }
  }

  /** The `has_more` line names the first table whose flag is truthy, and there is none when no flag is. */
  lemma {:induction false} HasMoreLineSpec(flags: seq<(string, Json)>)
    ensures HasMoreLine(flags).None? <==> forall k :: 0 <= k < |flags| ==> !Truthy(flags[k].1)
    ensures HasMoreLine(flags).Some? ==>
              exists k :: 0 <= k < |flags| && Truthy(flags[k].1) && HasMoreLine(flags).value == "has_more:" + flags[k].0 &&
                          forall j :: 0 <= j < k ==> !Truthy(flags[j].1)
  {
    if flags != [] && !Truthy(flags[0].1) {
      HasMoreLineSpec(flags[1..]);
      assert forall k :: 1 <= k < |flags| ==> flags[k] == flags[1..][k - 1];
      if HasMoreLine(flags).Some? {
        var k :| 0 <= k < |flags| - 1 && Truthy(flags[1..][k].1) && HasMoreLine(flags[1..]).value == "has_more:" + flags[1..][k].0 &&
                 forall j :: 0 <= j < k ==> !Truthy(flags[1..][j].1);
        assert forall j :: 0 <= j < k + 1 ==> !Truthy(flags[j].1);
      }
    } else if flags != [] {
      assert Truthy(flags[0].1);
    }
  }

  /** `str(v)` applied to each value, joined by `" | "`. */
  function Piped(values: seq<Json>): string {
    Text.Join(seq(|values|, i requires 0 <= i < |values| => Str(values[i])), " | ")
  }

  /** The values of an object row in `keys` order, a missing key standing as `""`. */
  function RowValues(fields: seq<(string, Json)>, keys: seq<string>): seq<Json> {
    seq(|keys|, i requires 0 <= i < |keys| => Get(fields, keys[i], JStr("")))
  }

  /** One sample row: an object by `keys`, a list item by item, anything else as its JSON text. */
  function RowLine(row: Json, keys: seq<string>, dumps: Json -> string): string {
    match row
    case JObj(fields) => Piped(RowValues(fields, keys))
    case JArr(items) => Piped(items)
    case _ => dumps(row)
  }

  /** The key order: the sorted keys of the first row when it is an object, none otherwise. */
  function KeyOrder(sampleRows: Json): Result<seq<string>, Fault> {
    if !Truthy(sampleRows) then Success([])
    else match First(sampleRows)
      case Failure(e) => Failure(e)
      case Success(JObj(fields)) => Success(Text.Sort(Keys(fields)))
      case Success(_) => Success([])
  }

  /** `args.get("sql") or result.get("executedSql") or ""`, stripped when it is shown; a truthy value that is not a string raises. */
  function SqlArg(args: seq<(string, Json)>, result: seq<(string, Json)>): Result<Option<string>, Fault> {
    var sql := Or(Or(Get(args, "sql", JNull), Get(result, "executedSql", JNull)), JStr(""));
    if !Truthy(sql) then Success(None)
    else if sql.JStr? then Success(Some(Text.Strip(sql.s)))
    else Failure(AttributeError)
  }

  /** The text of the scalar parameters: JSON for an object or a list, `str()` otherwise, and empty for `None` or no entry. */
  function ScalarArgs(args: seq<(string, Json)>, dumps: Json -> string): string {
    var p := Get(args, "scalar_parameters", JNull);
    if p.JObj? || p.JArr? then dumps(p) else if p.JNull? then "" else Str(p)
  }

  predicate IsDigits(s: string) {
    s != [] && forall i :: 0 <= i < |s| ==> '0' <= s[i] <= '9'
  }

  /** Python `int()` of a string: surrounding white space, an optional sign and decimal digits. */
  function ParseInt(s: string): Result<int, Fault> {
    var t := Text.Strip(s);
    if IsDigits(t) then Success(Text.Digits(t))
    else if |t| >= 2 && (t[0] == '-' || t[0] == '+') && IsDigits(t[1..]) then
      Success(if t[0] == '-' then -(Text.Digits(t[1..]) as int) else Text.Digits(t[1..]))
    else Failure(ValueError("invalid literal for int() with base 10: " + Repr(JStr(s))))
  }

  /** `int(result.get("row_count") or 0)`. */
  function RowCount(result: seq<(string, Json)>): Result<int, Fault> {
    match Or(Get(result, "row_count", JNull), JInt(0))
    case JInt(i) => Success(i)
    case JBool(b) => Success(if b then 1 else 0)
    case JStr(s) => ParseInt(s)
    case _ => Failure(TypeError)
  }

  /** The lines before the sample: the tool, the shown arguments and the row count. */
  function SqlHead(sql: Option<string>, scalarArgs: string, rowCount: int): seq<string> {
    ["tool: sql_execute"]
    + (if sql.Some? then ["args.sql:", sql.value] else [])
    + (if scalarArgs != "" then ["args.scalar_parameters:", scalarArgs] else [])
    + ["row_count:" + Text.IntToString(rowCount), "sample_rows:"]
  }

  function RowLines(rows: seq<Json>, keys: seq<string>, dumps: Json -> string): seq<string> {
    seq(|rows|, i requires 0 <= i < |rows| => RowLine(rows[i], keys, dumps))
  }

  /** The lines `compact_sql_execute` joins. */
  function SqlText(result: seq<(string, Json)>, args: seq<(string, Json)>, dumps: Json -> string): Result<seq<string>, Fault> {
    match SqlArg(args, result)
    case Failure(e) => Failure(e)
    case Success(sql) =>
      match RowCount(result)
      case Failure(e) => Failure(e)
      case Success(n) =>
        var sampleRows := Or(Get(result, "sample_rows", JNull), JArr([]));
        match KeyOrder(sampleRows)
        case Failure(e) => Failure(e)
        case Success(keys) =>
          match Iter(sampleRows)
          case Failure(e) => Failure(e)
          case Success(rows) => Success(SqlHead(sql, ScalarArgs(args, dumps), n) + RowLines(rows, keys, dumps))
  }

  /** `compact_sql_execute`. */
  method CompactSqlExecute(result: seq<(string, Json)>, args: seq<(string, Json)>, dumps: Json -> string) returns (r: Result<string, Fault>)
    ensures r.Success? <==> SqlText(result, args, dumps).Success?
    ensures r.Success? ==> r.value == Text.Join(SqlText(result, args, dumps).value, "\n")
  {
    var sql := SqlArg(args, result);
    if sql.Failure? {
      return Failure(sql.error);
    }
    var n := RowCount(result);
    if n.Failure? {
      return Failure(n.error);
    }
    var sampleRows := Or(Get(result, "sample_rows", JNull), JArr([]));
    var keys := KeyOrder(sampleRows);
    if keys.Failure? {
      return Failure(keys.error);
    }
    var rows := Iter(sampleRows);
    if rows.Failure? {
      return Failure(rows.error);
    }
    var lines := SqlHead(sql.value, ScalarArgs(args, dumps), n.value);
    var rendered := RenderRows(rows.value, keys.value, dumps);
    return Success(Text.Join(lines + rendered, "\n"));
  }

  /** The loop over the sample rows, one line each. */
  method RenderRows(rows: seq<Json>, keys: seq<string>, dumps: Json -> string) returns (lines: seq<string>)
    ensures lines == RowLines(rows, keys, dumps)
  {
    lines := [];
    for i := 0 to |rows|
      invariant lines == RowLines(rows[..i], keys, dumps)
    {
      lines := lines + [RowLine(rows[i], keys, dumps)];
    }
    assert rows[..|rows|] == rows;
  }

  /**
    The SQL text always holds `row_count:<n>` and `sample_rows:`; the `args.sql:`
    block is there exactly when the SQL text is truthy and the
    `args.scalar_parameters:` block exactly when the parameters' text is not
    empty, each followed by its text.
  */
  lemma SqlHeadLayout(sql: Option<string>, scalarArgs: string, n: int)
    ensures var h := SqlHead(sql, scalarArgs, n); var s0 := if sql.Some? then 3 else 1;
            var o := s0 + (if scalarArgs != "" then 2 else 0);
            && |h| == o + 2 && h[0] == "tool: sql_execute"
            && (h[1] == "args.sql:" <==> sql.Some?) && (sql.Some? ==> h[2] == sql.value)
            && (h[s0] == "args.scalar_parameters:" <==> scalarArgs != "") && (scalarArgs != "" ==> h[s0 + 1] == scalarArgs)
            && h[o] == "row_count:" + Text.IntToString(n) && h[o + 1] == "sample_rows:"
  {
    var h := SqlHead(sql, scalarArgs, n);
    var s0 := if sql.Some? then 3 else 1;
    assert ("row_count:" + Text.IntToString(n))[0] == 'r';
    assert "args.sql:"[6] != "args.scalar_parameters:"[6];
    if sql.None? {
      assert h[1] == (if scalarArgs != "" then "args.scalar_parameters:" else "row_count:" + Text.IntToString(n));
    }
    if scalarArgs == "" {
      assert h[s0] == "row_count:" + Text.IntToString(n);
    }
  }

  /** The SQL text is the head lines followed by exactly one line per sample row, in order. */
  lemma SqlRowLines(result: seq<(string, Json)>, args: seq<(string, Json)>, dumps: Json -> string)
    requires SqlText(result, args, dumps).Success?
    ensures var sampleRows := Or(Get(result, "sample_rows", JNull), JArr([]));
            var lines := SqlText(result, args, dumps).value;
            var head := SqlHead(SqlArg(args, result).value, ScalarArgs(args, dumps), RowCount(result).value);
            && Iter(sampleRows).Success? && KeyOrder(sampleRows).Success?
            && |lines| == |head| + |Iter(sampleRows).value| && lines[..|head|] == head
            && forall i :: 0 <= i < |Iter(sampleRows).value| ==>
                 lines[|head| + i] == RowLine(Iter(sampleRows).value[i], KeyOrder(sampleRows).value, dumps)
  {
  }

  /** With an object first row the keys are that row's keys, each once, in sorted order. */
  lemma KeyOrderSpec(sampleRows: Json)
    requires KeyOrder(sampleRows).Success? && Truthy(sampleRows) && First(sampleRows).Success? && First(sampleRows).value.JObj?
    ensures var keys := KeyOrder(sampleRows).value; var first := First(sampleRows).value.fields;
            Text.Sorted(keys) && multiset(keys) == multiset(Keys(first))
  {
    Text.SortSpec(Keys(First(sampleRows).value.fields));
  }

  /** An object row without one of the keys shows `""` in that place. */
  lemma RowValuesMissing(fields: seq<(string, Json)>, keys: seq<string>, i: nat)
    requires i < |keys| && keys[i] !in Keys(fields)
    ensures RowValues(fields, keys)[i] == JStr("")
  {
    LookupSpec(fields, keys[i]);
  }

  /**
    The object row `{"b": "x", "a": 1}` under the keys `a`, `b` in sorted order
    shows as `1 | x`, whatever the order of its own entries.
  */
  lemma RowLineExample(dumps: Json -> string)
    ensures Text.Sort(["b", "a"]) == ["a", "b"]
    ensures RowLine(JObj([("b", JStr("x")), ("a", JInt(1))]), ["a", "b"], dumps) == "1 | x"
  {
    var r := [("b", JStr("x")), ("a", JInt(1))];
    assert Text.StrLe("a", "b") && !Text.StrLe("b", "a");
    assert Text.Sort(["a"]) == ["a"];
    assert ["b", "a"][1..] == ["a"];
    LookupPast(r, "a");
    assert RowValues(r, ["a", "b"]) == [JInt(1), JStr("x")];
    PipedPair(JInt(1), JStr("x"));
    assert Str(JInt(1)) == "1";
  }

  lemma PipedPair(a: Json, b: Json)
    ensures Piped([a, b]) == Str(a) + " | " + Str(b)
  {
    var strs := seq(2, i requires 0 <= i < 2 => Str([a, b][i]));
    assert strs == [Str(a), Str(b)];
    assert strs[1..] == [Str(b)];
    assert Text.Join(strs, " | ") == strs[0] + " | " + Text.Join(strs[1..], " | ");
  }

  /** `isinstance(v, (int, float, str))`; a `bool` is an `int` in Python. */
  predicate IsScalar(v: Json) {
    v.JInt? || v.JBool? || v.JStr?
  }

  /** The entries with scalar values, in result order. */
  function ScalarEntries(fields: seq<(string, Json)>): seq<(string, Json)> {
    if fields == [] then []
    else (if IsScalar(fields[0].1) then [fields[0]] else []) + ScalarEntries(fields[1..])
  }

  /** The summary keeps exactly the scalar entries, and keeps their order: it distributes over concatenation. */
  lemma {:induction false} ScalarEntriesSpec(a: seq<(string, Json)>, b: seq<(string, Json)>, e: (string, Json))
    ensures e in ScalarEntries(a) <==> e in a && IsScalar(e.1)
    ensures ScalarEntries(a + b) == ScalarEntries(a) + ScalarEntries(b)
  {
    if a != [] {
      ScalarEntriesSpec(a[1..], b, e);
      assert (a + b)[1..] == a[1..] + b;
      assert a == [a[0]] + a[1..];
    } else {
      assert a + b == b;
    }
  }

  function Joined(r: Result<seq<string>, Fault>): Result<string, Fault> {
    match r
    case Failure(e) => Failure(e)
    case Success(lines) => Success(Text.Join(lines, "\n"))
  }

  /** The summary of a result from any other tool: its scalar entries as `key:value` lines. */
  function OtherTool(toolName: string, result: seq<(string, Json)>): string {
    var entries := ScalarEntries(result);
    "tool: " + toolName + "\n" + Text.Join(seq(|entries|, i requires 0 <= i < |entries| => entries[i].0 + ":" + Str(entries[i].1)), "\n")
  }

  /** `build_prompt_context`: the compaction chosen by the stripped, lower-cased tool name. */
  function BuildPromptContext(toolName: string, result: seq<(string, Json)>, args: seq<(string, Json)>, dumps: Json -> string): Result<string, Fault> {
    var name := Text.Lower(Text.Strip(toolName));
    if name == CatalogTool then Joined(CatalogText(result, args))
    else if name == SqlTool then Joined(SqlText(result, args, dumps))
    else Success(OtherTool(toolName, result))
  }

  /** Names that agree once stripped and lower-cased select the same compaction of a catalog or SQL result. */
  lemma BuildPromptContextCase(a: string, b: string, result: seq<(string, Json)>, args: seq<(string, Json)>, dumps: Json -> string)
    requires Text.Lower(Text.Strip(a)) == Text.Lower(Text.Strip(b)) && Text.Lower(Text.Strip(a)) in {CatalogTool, SqlTool}
    ensures BuildPromptContext(a, result, args, dumps) == BuildPromptContext(b, result, args, dumps)
  {
  }
}
