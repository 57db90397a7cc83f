/**
  The SQL tool: the inference of columns, sample rows and row count from the
  three JSON layouts the query service may answer with, the normalisation of
  the scalar parameters, and the assembly of the tool's result. The query
  service and `json.loads` are parameters.
*/
module SqlTool {
  import opened Wrappers
  import opened Json
  import Text

  /** `(columns, sample_rows, row_count)`. */
  datatype Summary = Summary(columns: seq<Json>, sample: seq<Json>, rowCount: nat)

  const Unstructured := Summary([], [], 0)

  function Min(a: nat, b: nat): nat {
    if a <= b then a else b
  }

  /**
    The dictionary key a column name becomes: a string is itself; `None`, a
    boolean or a number is keyed by its JSON text; a list or an object is
    unhashable and raises `TypeError`.
  */
  function KeyOf(c: Json): Result<string, Fault> {
    match c
    case JStr(s) => Success(s)
    case JNull => Success("null")
    case JBool(b) => Success(if b then "true" else "false")
    case JInt(i) => Success(Text.IntToString(i))
    case _ => Failure(TypeError)
  }

  /** The key of value `i` of a list row: the column at the same position, or `col_<i>`. */
  function ColumnKey(columns: seq<Json>, i: nat): (r: Result<string, Fault>)
    ensures i >= |columns| ==> r == Success("col_" + Text.NatToString(i))
  {
    if i < |columns| then KeyOf(columns[i]) else Success("col_" + Text.NatToString(i))
  }

  /** `{key(i): values[i] for i in range(len(values))}`: keys evaluated left to right, a repeated key keeps its first place and takes the later value. */
  function ZipRow(values: seq<Json>, columns: seq<Json>): Result<seq<(string, Json)>, Fault> {
    if values == [] then Success([])
    else
      var n := |values|;
      match ZipRow(values[..n - 1], columns)
      case Failure(e) => Failure(e)
      case Success(d) =>
        match ColumnKey(columns, n - 1)
        case Failure(e) => Failure(e)
        case Success(k) => Success(Put(d, k, values[n - 1]))
  }

  /** What `r[i] for i in range(len(r))` reads from a row in the list layout, or the exception it raises. */
  function ListRowDict(r: Json, columns: seq<Json>): Result<seq<(string, Json)>, Fault> {
    match r
    case JArr(items) => ZipRow(items, columns)
    case JStr(s) => ZipRow(seq(|s|, i requires 0 <= i < |s| => JStr([s[i]])), columns)
    case JObj(f) =>
      if f == [] then Success([]) else Failure(KeyError)
    case _ => Failure(TypeError)
  }

  /** The sample of the list layout: one object per row, or the first exception. */
  function ListSampleOf(rows: seq<Json>, columns: seq<Json>): (r: Result<seq<Json>, Fault>)
    ensures r.Success? ==> |r.value| == |rows|
  {
    if rows == [] then Success([])
    else
      var n := |rows|;
      match ListSampleOf(rows[..n - 1], columns)
      case Failure(e) => Failure(e)
      case Success(s) =>
        match ListRowDict(rows[n - 1], columns)
        case Failure(e) => Failure(e)
        case Success(d) => Success(s + [JObj(d)])
  }

  /** The sample loop of the list layout, `for r in rows[:sample_limit]: sample.append(row_dict)`. */
  method ListSample(rows: seq<Json>, columns: seq<Json>, limit: nat) returns (r: Result<seq<Json>, Fault>)
    ensures r == ListSampleOf(rows[..Min(limit, |rows|)], columns)
  {
    var taken := rows[..Min(limit, |rows|)];
    var sample := [];
    var i := 0;
    while i < |taken|
      invariant 0 <= i <= |taken|
      invariant ListSampleOf(taken[..i], columns) == Success(sample)
    {
      assert taken[..i + 1][..i] == taken[..i];
      var d := ListRowDict(taken[i], columns);
      if d.Failure? {
        ListSampleFailure(taken, columns, i + 1);
        ListSampleFailureStays(taken, columns, i + 1);
        return Failure(d.error);
      }
      sample := sample + [JObj(d.value)];
      i := i + 1;
    }
    assert taken[..i] == taken;
    return Success(sample);
  }

  /** Once a row raises, the whole sample raises that exception. */
  lemma {:induction false} ListSampleFailure(rows: seq<Json>, columns: seq<Json>, i: nat)
    requires 0 < i <= |rows| && ListSampleOf(rows[..i - 1], columns).Success? && ListRowDict(rows[i - 1], columns).Failure?
    ensures ListSampleOf(rows[..i], columns) == Failure(ListRowDict(rows[i - 1], columns).error)
  {
    assert rows[..i][..i - 1] == rows[..i - 1];
  }

  /** A sample that raised on a prefix of the rows raises the same on all of them. */
  lemma {:induction false} ListSampleFailureStays(rows: seq<Json>, columns: seq<Json>, i: nat)
    requires i <= |rows| && ListSampleOf(rows[..i], columns).Failure?
    ensures ListSampleOf(rows, columns) == ListSampleOf(rows[..i], columns)
    decreases |rows| - i
  {
    if i < |rows| {
      var n := |rows|;
      assert rows[..n - 1][..i] == rows[..i];
      ListSampleFailureStays(rows[..n - 1], columns, i);
    } else {
      assert rows[..i] == rows;
    }
  }

  /** Iterating a value with `str()` applied to each item: `[str(c) for c in columns]`. */
  function StrList(columns: Json): Result<seq<Json>, Fault> {
    match Iter(columns)
    case Failure(e) => Failure(e)
    case Success(items) => Success(seq(|items|, i requires 0 <= i < |items| => JStr(Str(items[i]))))
  }

  /** `[c.get("Name") if isinstance(c, dict) else str(c) for c in cols]`. */
  function TableColumns(cols: Json): Result<seq<Json>, Fault> {
    match Iter(cols)
    case Failure(e) => Failure(e)
    case Success(items) =>
      Success(seq(|items|, i requires 0 <= i < |items| =>
        if items[i].JObj? then (assert items[i] in items; Get(items[i].fields, "Name", JNull)) else JStr(Str(items[i]))))
  }

  /** The list-layout outcome once `columns` is known: the sample rows as objects and the row count. */
  function ListOutcome(columns: Result<seq<Json>, Fault>, rows: seq<Json>, limit: nat): Result<Summary, Fault> {
    match columns
    case Failure(e) => Failure(e)
    case Success(cs) =>
      match ListSampleOf(rows[..Min(limit, |rows|)], cs)
      case Failure(e) => Failure(e)
      case Success(sample) => Success(Summary(cs, sample, |rows|))
  }

  /** The first table of the first layout, once it is known to be an object. */
  function TableLayout(table: seq<(string, Json)>, limit: nat): Option<Result<Summary, Fault>> {
    var rows := Or(Get(table, "Rows", JNull), JArr([]));
    match TableColumns(Or(Get(table, "Columns", JNull), JArr([])))
    case Failure(e) => Some(Failure(e))
    case Success(columns) =>
      if !Truthy(rows) then None
      else match First(rows)
        case Failure(e) => Some(Failure(e))
        case Success(JObj(_)) => Some(Success(Summary(columns, rows.items[..Min(limit, |rows.items|)], |rows.items|)))
        case Success(JArr(_)) => Some(ListOutcome(Success(columns), rows.items, limit))
        case Success(_) => None
  }

  /**
    The first layout, `{"Tables": [{"Columns": [...], "Rows": [...]}]}`. None
    when the layout does not apply or its first row is neither an object nor a
    list, in which case the later layouts are tried.
  */
  function TablesLayout(data: Json, limit: nat): Option<Result<Summary, Fault>> {
    if !data.JObj? then None
    else match Lookup(data.fields, "Tables")
      case Some(JArr(tables)) =>
        if tables == [] then None
        else if !tables[0].JObj? then Some(Failure(AttributeError))
        else TableLayout(tables[0].fields, limit)
      case _ => None
  }

  /** The keys of an object row, as JSON strings: `list(row.keys())`. */
  function KeyNames(fields: seq<(string, Json)>): seq<Json> {
    seq(|fields|, i requires 0 <= i < |fields| => JStr(fields[i].0))
  }

  /**
    The second layout, `{"columns": [...], "rows": [...]}`. None when it does
    not apply. Without names under `columns` the names are the keys of
    `sample[0]`, which raises `IndexError` when the sample is empty.
  */
  function RowsLayout(data: Json, limit: nat): Option<Result<Summary, Fault>> {
    if !data.JObj? || Lookup(data.fields, "rows").None? then None
    else
      var rows := Or(Get(data.fields, "rows", JNull), JArr([]));
      var columns := Or(Get(data.fields, "columns", JNull), JArr([]));
      if !Truthy(rows) then None
      else match First(rows)
        case Failure(e) => Some(Failure(e))
        case Success(JObj(first)) =>
          var sample := rows.items[..Min(limit, |rows.items|)];
          if Truthy(columns) then
            match StrList(columns)
            case Failure(e) => Some(Failure(e))
            case Success(cs) => Some(Success(Summary(cs, sample, |rows.items|)))
          else if sample == [] then Some(Failure(IndexError))
          else Some(Success(Summary(KeyNames(first), sample, |rows.items|)))
        case Success(JArr(_)) => Some(ListOutcome(StrList(columns), rows.items, limit))
        case Success(_) => None
  }

  /** Appends the keys of `more` not already in `seen`, in their order. */
  function AddKeys(seen: seq<string>, more: seq<string>): seq<string>
    decreases |more|
  {
    if more == [] then seen
    else AddKeys(if more[0] in seen then seen else seen + [more[0]], more[1..])
  }

  /**
    `list({k for row in sample for k in row.keys()})`, raising `AttributeError`
    at a row that is not an object. The names are listed in the order first
    seen; the order of a Python set is not part of this model.
  */
  function KeyUnion(sample: seq<Json>): Result<seq<string>, Fault> {
    if sample == [] then Success([])
    else
      var n := |sample|;
      match KeyUnion(sample[..n - 1])
      case Failure(e) => Failure(e)
      case Success(ks) =>
        if sample[n - 1].JObj? then Success(AddKeys(ks, Keys(sample[n - 1].fields)))
        else Failure(AttributeError)
  }

  function Names(keys: seq<string>): seq<Json> {
    seq(|keys|, i requires 0 <= i < |keys| => JStr(keys[i]))
  }

  /** The third layout, a bare list whose first item is an object. None when it does not apply. */
  function ListLayout(data: Json, limit: nat): Option<Result<Summary, Fault>> {
    if !data.JArr? || data.items == [] || !data.items[0].JObj? then None
    else
      var sample := data.items[..Min(limit, |data.items|)];
      match KeyUnion(sample)
      case Failure(e) => Some(Failure(e))
      case Success(ks) => Some(Success(Summary(Names(ks), sample, |data.items|)))
  }

  /** `_summarize_tabular_result`: the layouts in their fixed order, then the unstructured fallback. */
  function Summarize(data: Json, limit: nat): Result<Summary, Fault> {
    match TablesLayout(data, limit)
    case Some(r) => r
    case None =>
      match RowsLayout(data, limit)
      case Some(r) => r
      case None =>
        match ListLayout(data, limit)
        case Some(r) => r
        case None => Success(Unstructured)
  }

  /** A row value lands under its key unless a later value of the row takes the same key. */
  lemma {:induction false} ZipRowLookupAt(values: seq<Json>, columns: seq<Json>, i: nat, key: string)
    requires ZipRow(values, columns).Success? && i < |values| && ColumnKey(columns, i) == Success(key)
    requires forall j :: i < j < |values| ==> ColumnKey(columns, j) != Success(key)
    ensures Lookup(ZipRow(values, columns).value, key) == Some(values[i])
  {
    var n := |values|;
    var d := ZipRow(values[..n - 1], columns).value;
    var k := ColumnKey(columns, n - 1).value;
    if i == n - 1 {
      PutLookupSame(d, key, values[i]);
    } else {
      assert values[..n - 1][i] == values[i];
      ZipRowLookupAt(values[..n - 1], columns, i, key);
      PutLookupOther(d, k, values[n - 1], key);
    }
  }

  /** Distinct positions have distinct `col_<i>` names. */
  lemma OverflowNamesDistinct(i: nat, j: nat)
    requires i != j
    ensures "col_" + Text.NatToString(i) != "col_" + Text.NatToString(j)
  {
    if "col_" + Text.NatToString(i) == "col_" + Text.NatToString(j) {
      assert ("col_" + Text.NatToString(i))[4..] == Text.NatToString(i);
      assert ("col_" + Text.NatToString(j))[4..] == Text.NatToString(j);
      Text.DigitsOfNatToString(i);
      Text.DigitsOfNatToString(j);
    }
  }

  /** A list row longer than the columns keeps each extra value under `col_<i>`. */
  lemma OverflowColumn(values: seq<Json>, columns: seq<Json>, i: nat)
    requires ZipRow(values, columns).Success? && |columns| <= i < |values|
    ensures Lookup(ZipRow(values, columns).value, "col_" + Text.NatToString(i)) == Some(values[i])
  {
    forall j | i < j < |values|
      ensures ColumnKey(columns, j) != Success("col_" + Text.NatToString(i))
    {
      OverflowNamesDistinct(j, i);
    }
    ZipRowLookupAt(values, columns, i, "col_" + Text.NatToString(i));
  }

  predicate AllStrings(columns: seq<Json>) {
    forall c :: c in columns ==> c.JStr?
  }

  /** With string column names the conversion of a list row cannot raise. */
  lemma {:induction false} ZipRowStrings(values: seq<Json>, columns: seq<Json>)
    requires AllStrings(columns)
    ensures ZipRow(values, columns).Success?
  {
    if values != [] {
      ZipRowStrings(values[..|values| - 1], columns);
      var n := |values|;
      if n - 1 < |columns| {
        assert columns[n - 1] in columns;
      }
    }
  }

  /** `str()` of a string is that string, so `[str(c) for c in cols]` keeps a list of strings. */
  lemma StrListStrings(cs: seq<Json>)
    requires AllStrings(cs)
    ensures StrList(JArr(cs)) == Success(cs)
    ensures TableColumns(JArr(cs)) == Success(cs)
  {
    var l := seq(|cs|, i requires 0 <= i < |cs| => JStr(Str(cs[i])));
    forall i | 0 <= i < |cs| ensures l[i] == cs[i] {
      assert cs[i] in cs;
    }
    assert l == cs;
    var t := seq(|cs|, i requires 0 <= i < |cs| => if cs[i].JObj? then Get(cs[i].fields, "Name", JNull) else JStr(Str(cs[i])));
    forall i | 0 <= i < |cs| ensures t[i] == cs[i] {
      assert cs[i] in cs;
    }
    assert t == cs;
  }

  /**
    `{"Tables": [{"Columns": cs, "Rows": rows}]}` with object rows: the column
    names, the first `limit` rows unchanged, and the number of rows.
  */
  lemma TablesObjectRows(data: Json, limit: nat, table: seq<(string, Json)>, cs: seq<Json>, rows: seq<Json>)
    requires data.JObj? && Lookup(data.fields, "Tables").Some? && Lookup(data.fields, "Tables").value.JArr?
    requires var ts := Lookup(data.fields, "Tables").value.items; ts != [] && ts[0] == JObj(table)
    requires Lookup(table, "Columns") == Some(JArr(cs)) && AllStrings(cs)
    requires Lookup(table, "Rows") == Some(JArr(rows)) && rows != [] && rows[0].JObj?
    ensures Summarize(data, limit) == Success(Summary(cs, rows[..Min(limit, |rows|)], |rows|))
  {
    StrListStrings(cs);
    if cs == [] {
      assert TableColumns(JArr([])) == Success([]);
    }
  }

  /**
    `{"Tables": [{"Columns": cs, "Rows": rows}]}` with list rows of string
    columns: row `k` of the sample is the object zipping row `k` with the
    column names.
  */
  lemma TablesListRows(data: Json, limit: nat, table: seq<(string, Json)>, cs: seq<Json>, rows: seq<Json>, k: nat)
    requires data.JObj? && Lookup(data.fields, "Tables").Some? && Lookup(data.fields, "Tables").value.JArr?
    requires var ts := Lookup(data.fields, "Tables").value.items; ts != [] && ts[0] == JObj(table)
    requires Lookup(table, "Columns") == Some(JArr(cs)) && AllStrings(cs)
    requires Lookup(table, "Rows") == Some(JArr(rows)) && rows != [] && rows[0].JArr?
    requires k < Min(limit, |rows|) && rows[k].JArr?
    requires forall r :: 0 <= r < Min(limit, |rows|) ==> rows[r].JArr?
    ensures Summarize(data, limit).Success?
    ensures var s := Summarize(data, limit).value;
            && s.columns == cs && s.rowCount == |rows| && |s.sample| == Min(limit, |rows|)
            && ZipRow(rows[k].items, cs).Success? && s.sample[k] == JObj(ZipRow(rows[k].items, cs).value)
  {
    TablesListOutcome(data, limit, table, cs, rows);
    var taken := rows[..Min(limit, |rows|)];
    ListSampleSucceeds(taken, cs, |taken|);
    assert taken[..|taken|] == taken;
    ListSampleAt(taken, cs, k);
    ZipRowStrings(rows[k].items, cs);
  }

  lemma TablesListOutcome(data: Json, limit: nat, table: seq<(string, Json)>, cs: seq<Json>, rows: seq<Json>)
    requires data.JObj? && Lookup(data.fields, "Tables").Some? && Lookup(data.fields, "Tables").value.JArr?
    requires var ts := Lookup(data.fields, "Tables").value.items; ts != [] && ts[0] == JObj(table)
    requires Lookup(table, "Columns") == Some(JArr(cs)) && AllStrings(cs)
    requires Lookup(table, "Rows") == Some(JArr(rows)) && rows != [] && rows[0].JArr?
    ensures Summarize(data, limit) == ListOutcome(Success(cs), rows, limit)
  {
    StrListStrings(cs);
    if cs == [] {
      assert TableColumns(JArr([])) == Success([]);
    }
  }

  /** With string columns, a sample of list rows cannot raise. */
  lemma {:induction false} ListSampleSucceeds(rows: seq<Json>, columns: seq<Json>, i: nat)
    requires AllStrings(columns) && i <= |rows|
    requires forall r :: 0 <= r < |rows| ==> rows[r].JArr?
    ensures ListSampleOf(rows[..i], columns).Success?
  {
    if i > 0 {
      assert rows[..i][..i - 1] == rows[..i - 1];
      ListSampleSucceeds(rows, columns, i - 1);
      ZipRowStrings(rows[i - 1].items, columns);
    }
  }

  /** Row `k` of the list-layout sample is the object built from the `k`-th row. */
  lemma {:induction false} ListSampleAt(rows: seq<Json>, columns: seq<Json>, k: nat)
    requires ListSampleOf(rows, columns).Success? && k < |rows|
    ensures ListRowDict(rows[k], columns).Success?
    ensures ListSampleOf(rows, columns).value[k] == JObj(ListRowDict(rows[k], columns).value)
  {
    var n := |rows|;
    if k < n - 1 {
      ListSampleAt(rows[..n - 1], columns, k);
      assert rows[..n - 1][k] == rows[k];
    }
  }

  /**
    `{"rows": rows}` with object rows and no names under `columns`: the column
    names are the keys of the first row, in its order.
  */
  lemma RowsKeysOfFirst(data: Json, limit: nat, rows: seq<Json>)
    requires data.JObj? && Lookup(data.fields, "Tables").None?
    requires Lookup(data.fields, "rows") == Some(JArr(rows)) && rows != [] && rows[0].JObj?
    requires !Truthy(Get(data.fields, "columns", JNull)) && limit > 0
    ensures Summarize(data, limit) == Success(Summary(KeyNames(rows[0].fields), rows[..Min(limit, |rows|)], |rows|))
  {
  }

  /** The same response with a sample size of 0 has no first sample row to take keys from: `IndexError`. */
  lemma RowsEmptySampleFails(data: Json, rows: seq<Json>)
    requires data.JObj? && Lookup(data.fields, "Tables").None?
    requires Lookup(data.fields, "rows") == Some(JArr(rows)) && rows != [] && rows[0].JObj?
    requires !Truthy(Get(data.fields, "columns", JNull))
    ensures Summarize(data, 0) == Failure(IndexError)
  {
  }

  /** A response that is neither an object nor a list is not recognised. */
  lemma ScalarUnstructured(data: Json, limit: nat)
    requires !data.JObj? && !data.JArr?
    ensures Summarize(data, limit) == Success(Unstructured)
  {
  }

  /** An object without a `Tables` list or a `rows` key is not recognised. */
  lemma ObjectUnstructured(data: Json, limit: nat)
    requires data.JObj? && "Tables" !in Keys(data.fields) && "rows" !in Keys(data.fields)
    ensures Summarize(data, limit) == Success(Unstructured)
  {
    LookupSpec(data.fields, "Tables");
    LookupSpec(data.fields, "rows");
  }

  /** A recognised layout always has at least one row: a count of 0 means the response was not recognised. */
  lemma RowCountZeroIsUnstructured(data: Json, limit: nat)
    requires Summarize(data, limit).Success? && Summarize(data, limit).value.rowCount == 0
    ensures Summarize(data, limit).value == Unstructured
  {
  }

  /** In every layout the sample holds the first min(limit, row count) rows' worth. */
  lemma SummarySampleSize(data: Json, limit: nat)
    requires Summarize(data, limit).Success?
    ensures var s := Summarize(data, limit).value; |s.sample| == Min(limit, s.rowCount)
  {
  }

  /** `AddKeys` keeps the names seen, adds those of `more`, and adds none twice. */
  lemma {:induction false} AddKeysSpec(seen: seq<string>, more: seq<string>, k: string)
    ensures k in AddKeys(seen, more) <==> k in seen || k in more
    ensures Distinct(seen) ==> Distinct(AddKeys(seen, more))
    decreases |more|
  {
    if more != [] {
      var next := if more[0] in seen then seen else seen + [more[0]];
      AddKeysSpec(next, more[1..], k);
      assert more == [more[0]] + more[1..];
      if Distinct(seen) && more[0] !in seen {
        assert Distinct(next) by {
          forall a, b | 0 <= a < b < |next| ensures next[a] != next[b] {
            if b == |seen| {
              assert next[a] in seen;
            }
          }
        }
      }
    }
  }

  predicate Distinct(names: seq<string>) {
    forall a, b :: 0 <= a < b < |names| ==> names[a] != names[b]
  }

  /**
    The bare-list layout names every key of every sample row, each once, and
    raises `AttributeError` exactly when a sample row is not an object.
  */
  lemma {:induction false} KeyUnionSpec(sample: seq<Json>, k: string)
    ensures KeyUnion(sample).Success? <==> forall r :: 0 <= r < |sample| ==> sample[r].JObj?
    ensures KeyUnion(sample).Failure? ==> KeyUnion(sample).error == AttributeError
    ensures KeyUnion(sample).Success? ==>
              && Distinct(KeyUnion(sample).value)
              && (k in KeyUnion(sample).value <==> exists r :: 0 <= r < |sample| && sample[r].JObj? && k in Keys(sample[r].fields))
  {
    if sample != [] {
      var n := |sample|;
      var init := sample[..n - 1];
      KeyUnionSpec(init, k);
      assert forall r :: 0 <= r < n - 1 ==> init[r] == sample[r];
      if KeyUnion(init).Success? && sample[n - 1].JObj? {
        AddKeysSpec(KeyUnion(init).value, Keys(sample[n - 1].fields), k);
        if k in Keys(sample[n - 1].fields) {
          assert sample[n - 1].JObj? && k in Keys(sample[n - 1].fields);
        }
      }
    }
  }

  /**
    The scalar parameters sent with a query: an object is kept; a non-blank
    string is parsed as JSON, and when that fails, parsed again with every `'`
    replaced by `"`; a parse that yields anything but an object, and every
    other value, gives `{}`.
  */
  function NormalizeScalarParameters(p: Json, parse: string -> Option<Json>): (r: Json)
    ensures r.JObj?
    ensures p.JObj? ==> r == p
    ensures !p.JObj? && !p.JStr? ==> r == JObj([])
  {
    if p.JObj? then p
    else if p.JStr? && Text.Strip(p.s) != "" then
      var raw := Text.Strip(p.s);
      match parse(raw)
      case Some(v) => if v.JObj? then v else JObj([])
      case None =>
        match parse(Text.ReplaceChar(raw, '\'', '"'))
        case Some(v) => if v.JObj? then v else JObj([])
        case None => JObj([])
    else JObj([])
  }

  /**
    The repair is tried only when the stripped text does not parse: text in
    single quotes that parses once its quotes are doubled is accepted.
  */
  lemma NormalizeRetry(s: string, parse: string -> Option<Json>)
    requires Text.Strip(s) != ""
    ensures var raw := Text.Strip(s);
            && (parse(raw).Some? ==> NormalizeScalarParameters(JStr(s), parse) == (if parse(raw).value.JObj? then parse(raw).value else JObj([])))
            && (parse(raw).None? && parse(Text.ReplaceChar(raw, '\'', '"')).Some? && parse(Text.ReplaceChar(raw, '\'', '"')).value.JObj? ==>
                  NormalizeScalarParameters(JStr(s), parse) == parse(Text.ReplaceChar(raw, '\'', '"')).value)
  {
  }

  /** A blank string of parameters sends `{}`. */
  lemma NormalizeBlank(s: string, parse: string -> Option<Json>)
    requires Text.Strip(s) == ""
    ensures NormalizeScalarParameters(JStr(s), parse) == JObj([])
  {
  }

  /** The object the query service is sent and the layout summary of its answer, as `run_sql_execute` returns them. */
  function SqlResult(queryName: Json, durationMs: int, s: Summary, raw: Json): Json {
    JObj([
      ("query_name", queryName),
      ("duration_ms", JInt(durationMs)),
      ("row_count", JInt(s.rowCount)),
      ("columns", JArr(s.columns)),
      ("sample_rows", JArr(s.sample)),
      ("data", if s.rowCount == 0 then raw else JNull)])
  }

  /**
    `run_sql_execute`: the parameters normalised, the query sent through
    `execute` (the query service, which answers with the response JSON), and
    the summary of the answer; the clock's reading is `durationMs`.
  */
  function RunSqlExecute(sql: string, scalarParameters: Json, queryName: Json, limit: nat,
                         parse: string -> Option<Json>, execute: (string, Json, Json) -> Json, durationMs: int): Result<Json, Fault>
  {
    var raw := execute(sql, NormalizeScalarParameters(scalarParameters, parse), queryName);
    match Summarize(raw, limit)
    case Failure(e) => Failure(e)
    case Success(s) => Success(SqlResult(queryName, durationMs, s, raw))
  }

  /**
    The query service receives an object of parameters; the full response is
    returned under `data` exactly when no layout was recognised, and `null`
    stands there otherwise; `row_count` is the number of rows recognised.
  */
  lemma SqlResultData(sql: string, scalarParameters: Json, queryName: Json, limit: nat,
                      parse: string -> Option<Json>, execute: (string, Json, Json) -> Json, durationMs: int)
    requires RunSqlExecute(sql, scalarParameters, queryName, limit, parse, execute, durationMs).Success?
    ensures var params := NormalizeScalarParameters(scalarParameters, parse);
            var raw := execute(sql, params, queryName);
            var r := RunSqlExecute(sql, scalarParameters, queryName, limit, parse, execute, durationMs).value;
            && params.JObj? && Summarize(raw, limit).Success? && r.JObj?
            && Lookup(r.fields, "data") == Some(if Summarize(raw, limit).value == Unstructured then raw else JNull)
            && Lookup(r.fields, "row_count") == Some(JInt(Summarize(raw, limit).value.rowCount))
  {
    var raw := execute(sql, NormalizeScalarParameters(scalarParameters, parse), queryName);
    var s := Summarize(raw, limit).value;
    if s.rowCount == 0 {
      RowCountZeroIsUnstructured(raw, limit);
    }
    SqlResultFields(queryName, durationMs, s, raw);
  }

  lemma SqlResultFields(queryName: Json, durationMs: int, s: Summary, raw: Json)
    ensures Lookup(SqlResult(queryName, durationMs, s, raw).fields, "row_count") == Some(JInt(s.rowCount))
    ensures Lookup(SqlResult(queryName, durationMs, s, raw).fields, "data") == Some(if s.rowCount == 0 then raw else JNull)
  {
    var f := SqlResult(queryName, durationMs, s, raw).fields;
    LookupPast(f, "row_count");
    LookupPast(f[1..], "row_count");
    LookupPast(f, "data");
    LookupPast(f[1..], "data");
    LookupPast(f[2..], "data");
    assert f[2..][1..] == f[3..];
    LookupPast(f[3..], "data");
    assert f[3..][1..] == f[4..];
    LookupPast(f[4..], "data");
    assert f[4..][1..] == f[5..];
  }
}
