/**
  The tool registry: the two function tools offered to the model, and the
  dispatch of a tool call by name with argument validation. A successful
  dispatch is the backend request it would make; the backends themselves are
  not part of this model.
*/
module ToolRegistry {
  import opened Wrappers
  import opened Json
  import Text

  const CatalogTool := "catalog_get_fields"
  const SqlTool := "sql_execute"
  const SqlSampleLimit := 10

  /** The backend call a valid tool call makes. */
  datatype ToolRequest =
    | CatalogGetFields(tableLike: string)
    | SqlExecute(sql: string, scalarParameters: Json, queryName: Json, sampleLimit: nat)

  /** `str(arguments.get(key, "")).strip()`. */
  function StrArg(arguments: seq<(string, Json)>, key: string): string {
    Text.Strip(Str(Get(arguments, key, JStr(""))))
  }

  /** `execute_tool_call`: the request for a known tool with valid arguments, or the `ValueError` raised. */
  function ExecuteToolCall(name: string, arguments: seq<(string, Json)>): (r: Result<ToolRequest, Fault>)
    ensures r.Success? ==> name == CatalogTool || name == SqlTool
    ensures name != CatalogTool && name != SqlTool ==> r == Failure(ValueError("Unknown tool: " + name))
  {
    if name == CatalogTool then
      var tableLike := StrArg(arguments, "tableLike");
      if tableLike == "" then Failure(ValueError("Missing required argument: tableLike"))
      else Success(CatalogGetFields(tableLike))
    else if name == SqlTool then
      var sql := StrArg(arguments, "sql");
      if sql == "" then Failure(ValueError("Missing required argument: sql"))
      else
        var scalarParams := Or(Get(arguments, "scalarParameters", JNull), JObj([]));
        Success(SqlExecute(sql, scalarParams, Get(arguments, "queryName", JNull), SqlSampleLimit))
    else Failure(ValueError("Unknown tool: " + name))
  }

  /** A catalog call is refused exactly when `tableLike` is missing or blank, and otherwise forwards it stripped. */
  lemma CatalogValidation(arguments: seq<(string, Json)>)
    ensures var r := ExecuteToolCall(CatalogTool, arguments); var t := StrArg(arguments, "tableLike");
            && (r.Failure? <==> t == "")
            && (r.Failure? ==> r.error == ValueError("Missing required argument: tableLike"))
            && (r.Success? ==> r.value == CatalogGetFields(t) && !Text.IsSpace(t[0]) && !Text.IsSpace(t[|t| - 1]))
  {
    Text.StripEnds(Str(Get(arguments, "tableLike", JStr(""))));
  }

  /** An absent `tableLike` reads as the empty text, so the call is refused. */
  lemma CatalogMissingArgument(arguments: seq<(string, Json)>)
    requires Lookup(arguments, "tableLike").None?
    ensures ExecuteToolCall(CatalogTool, arguments) == Failure(ValueError("Missing required argument: tableLike"))
  {
  }

  /**
    A `tableLike` of JSON `null` is not refused: `str(None)` is the text
    "None", which is forwarded as the table pattern.
  */
  lemma CatalogNullArgument(arguments: seq<(string, Json)>)
    requires Lookup(arguments, "tableLike") == Some(JNull)
    ensures ExecuteToolCall(CatalogTool, arguments) == Success(CatalogGetFields("None"))
  {
    Text.StripUnchanged("None");
  }

  /**
    An SQL call is refused exactly when `sql` is missing or blank; otherwise it
    forwards the stripped text, the scalar parameters or `{}` when they are
    falsy, the query name and a sample limit of 10.
  */
  lemma SqlValidation(arguments: seq<(string, Json)>)
    ensures var r := ExecuteToolCall(SqlTool, arguments); var q := StrArg(arguments, "sql");
            && (r.Failure? <==> q == "")
            && (r.Failure? ==> r.error == ValueError("Missing required argument: sql"))
            && (r.Success? ==> && r.value.SqlExecute? && r.value.sql == q && r.value.sampleLimit == 10
                               && r.value.scalarParameters == (if Truthy(Get(arguments, "scalarParameters", JNull))
                                                               then Get(arguments, "scalarParameters", JNull) else JObj([])))
  {
  }

  /** Name matching is exact: a name differing from both tools in any character, including case, is unknown. */
  lemma UnknownTool(name: string, arguments: seq<(string, Json)>)
    requires name != CatalogTool && name != SqlTool
    ensures ExecuteToolCall(name, arguments).Failure?
    ensures ExecuteToolCall(name, arguments).error == ValueError("Unknown tool: " + name)
  {
  }

  /** The JSON-schema `parameters` object of a tool. */
  function Parameters(properties: seq<(string, Json)>, required: string): Json {
    JObj([
      ("type", JStr("object")),
      ("properties", JObj(properties)),
      ("required", JArr([JStr(required)])),
      ("additionalProperties", JBool(false))])
  }

  function FunctionTool(name: string, description: string, parameters: Json): Json {
    JObj([("type", JStr("function")), ("function", JObj([("name", JStr(name)), ("description", JStr(description)), ("parameters", parameters)]))])
  }

  function StringProperty(description: string): Json {
    JObj([("type", JStr("string")), ("description", JStr(description))])
  }

  const CatalogDescription :=
    "Get Honeycomb Catalog fields for matching tables. "
    + "Supports wildcards in tableLike (e.g., 'Lusid.Instrument', 'Lusid.Instrument%', 'Lusid.%')."
  const SqlDescription :=
    "Execute Luminesce SQL and return a compact result (columns, row_count, sample_rows up to 10). "
    + "Prefer selecting specific columns and filtering by identifiers to keep results small."

  function CatalogProperties(): seq<(string, Json)> {
    [("tableLike", StringProperty("A table name or pattern with wildcards to filter the catalog."))]
  }

  function SqlProperties(): seq<(string, Json)> {
    [
      ("sql", StringProperty("The Luminesce SQL to execute.")),
      ("scalarParameters", JObj([
        ("type", JStr("object")),
        ("description", JStr("Optional scalar parameters (key-value) for the SQL execution.")),
        ("additionalProperties", JObj([("type", JArr([JStr("string"), JStr("number"), JStr("boolean")]))]))])),
      ("queryName", StringProperty("Optional query name for logs."))]
  }

  /** `get_tool_definitions`. */
  function ToolDefinitions(): seq<Json> {
    [
      FunctionTool(CatalogTool, CatalogDescription, Parameters(CatalogProperties(), "tableLike")),
      FunctionTool(SqlTool, SqlDescription, Parameters(SqlProperties(), "sql"))
    ]
  }

  /** The name a tool definition declares, and the one argument it requires. */
  function DeclaredName(tool: Json): Option<Json> {
    if !tool.JObj? then None
    else match Lookup(tool.fields, "function")
      case Some(JObj(f)) => Lookup(f, "name")
      case _ => None
  }

  function DeclaredRequired(tool: Json): Option<Json> {
    if !tool.JObj? then None
    else match Lookup(tool.fields, "function")
      case Some(JObj(f)) =>
        (match Lookup(f, "parameters")
         case Some(JObj(p)) => Lookup(p, "required")
         case _ => None)
      case _ => None
  }

  /** `FunctionTool` builds a definition that declares the given name and required argument. */
  lemma FunctionToolDeclares(name: string, description: string, properties: seq<(string, Json)>, required: string)
    ensures DeclaredName(FunctionTool(name, description, Parameters(properties, required))) == Some(JStr(name))
    ensures DeclaredRequired(FunctionTool(name, description, Parameters(properties, required))) == Some(JArr([JStr(required)]))
  {
    var params := Parameters(properties, required);
    var f := [("name", JStr(name)), ("description", JStr(description)), ("parameters", params)];
    var outer := [("type", JStr("function")), ("function", JObj(f))];
    assert FunctionTool(name, description, params) == JObj(outer);
    LookupPast(outer, "function");
    assert Lookup(outer, "function") == Some(JObj(f));
    LookupPast(f, "parameters");
    LookupPast(f[1..], "parameters");
    assert Lookup(f, "parameters") == Some(params);
    var p := params.fields;
    LookupPast(p, "required");
    LookupPast(p[1..], "required");
    assert Lookup(p, "required") == Some(JArr([JStr(required)]));
  }

  /**
    Exactly two tools are offered, `catalog_get_fields` requiring `tableLike`
    and `sql_execute` requiring `sql`: the two names the dispatcher accepts,
    each refused when that argument is missing (`CatalogMissingArgument`,
    `SqlValidation`).
  */
  lemma DefinitionsDeclare(k: nat)
    requires k < |ToolDefinitions()|
    ensures |ToolDefinitions()| == 2
    ensures DeclaredName(ToolDefinitions()[k]) == Some(JStr(if k == 0 then CatalogTool else SqlTool))
    ensures DeclaredRequired(ToolDefinitions()[k]) == Some(JArr([JStr(if k == 0 then "tableLike" else "sql")]))
  {
    if k == 0 {
      FunctionToolDeclares(CatalogTool, CatalogDescription, CatalogProperties(), "tableLike");
    } else {
      FunctionToolDeclares(SqlTool, SqlDescription, SqlProperties(), "sql");
    }
  }
}
