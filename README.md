# Fathom core, modelled in Dafny

Fathom is an agent playground for LUSID workflow tasks. Its backend streams chat
completions from Azure OpenAI, offers the model two tools (a Honeycomb catalog
lookup and a Luminesce SQL query) and compacts their results into text, groups
workflow tasks by ultimate parent, and keeps chat sessions in Azure Table and
Blob storage. Its UI holds the task selection in a store, filters and groups
tasks in a side panel, and shows the selection as chips.

This project models that core. There is one module per source file, plus
four shared modules:

- `Wrappers` holds `Option` and `Result`.
- `Json` holds JSON values, with Python's truthiness, `str()`, `dict.get` and iteration.
- `Text` holds the string primitives the source relies on: `strip`, `lower`, `splitlines`, substring search, `join`, and number formatting.
- `Sorting` holds the stable descending sort that both Python's `sort(reverse=True)` and the UI's `Array.sort` perform.

Each module takes the form of its source:

- Pure code (validation, payload and header building, compaction, filters, chip contents) becomes functions, with lemmas about them.
- Loops become methods proved equal to a specification function. These are the stream decoder, the agent run, the grouping passes, the transcript reader and the chip bucketing.
- Objects whose fields change become classes. These are the Azure storage (blobs and table rows) and the UI store (selection, groups, filter, endpoint).

The source's I/O is modelled as parameters:

- HTTP calls, credentials and Key Vault lookups.
- `json.loads` and `json.dumps`.
- The clock and uuids.
- The date parser.

| module | file | models |
|---|---|---|
| `StreamDecoder` | stream_decoder.dfy | the event-stream loop of `stream_chat` |
| `ChatRequest` | chat_request.dfy | configuration, URL, payload and headers of the OpenAI client |
| `RunEvents` | run_events.dfy | the playground's agent and team runs as event streams |
| `ToolRegistry` | tool_registry.dfy | tool definitions and tool-call dispatch |
| `SqlTool` | sql_tool.dfy | the Luminesce result summary |
| `Compact` | compact.dfy | compaction of tool results and the prompt context |
| `TasksCompact` | tasks_compact.dfy | the compact task context |
| `Tasks` | tasks.dfy | task grouping shared by the tasks router and the UI |
| `TaskRouter` | task_router.dfy | the tasks endpoint |
| `LusidFilter` | lusid_filter.dfy | the local task filter |
| `TranscriptStore` | transcript_store.dfy | sessions and transcripts in Azure storage |
| `TaskStore` | task_store.dfy | the UI store's task state |
| `MockTasks` | mock_tasks.dfy | the UI's mock tasks |
| `TaskPanel` | task_panel.dfy | the side panel's filter and footer |
| `BatchFilter` | batch_filter.dfy | the batch picker |
| `TaskChips` | task_chips.dfy | the selection chips |
| `TaskItems` | task_items.dfy | the group and task rows |
| `MessageItem` | message_item.dfy | agent message content and attached-task chips |

## Model

| member | source | states |
|---|---|---|
| `ChatRequest.OrElse` | backend/fathom/clients/azure_openai_client.py:55 | Python `a or b` on optional texts: `a` when it is set and non-empty, otherwise `b` |
| `ChatRequest.LoadConfig` | backend/fathom/clients/azure_openai_client.py:37-96 | fails with the missing-variables message exactly when the endpoint or the deployment is unset or blank; on success the deployment is the stripped variable and the API version is the stripped `AZURE_OPENAI_API_VERSION`, or `2024-12-01-preview` when that is unset or blank, so never empty; an API key set in the environment is kept over Key Vault; otherwise, when a vault name is set, the secret `KEY_VAULT_AOAI_API_KEY_NAME` (default `AZURE-OPENAI-API-KEY`) read from `https://<name>.vault.azure.net` becomes the key, and a failed lookup leaves the environment's value |
| `ChatRequest.LoadConfigEndpoint` | backend/fathom/clients/azure_openai_client.py:85-86 | the stored endpoint is the configured one with its trailing slashes removed, so it does not end in `/` |
| `ChatRequest.BaseUrlJoin` | backend/fathom/clients/azure_openai_client.py:121-123 | the chat-completions URL starts with the endpoint followed by exactly one `/` |
| `ChatRequest.PayloadKeys` | backend/fathom/clients/azure_openai_client.py:171-177 | the body's keys in insertion order: `messages` and `temperature`, then `tools` when the list is non-empty, then `tool_choice` when given, then `stream` when streaming |
| `ChatRequest.PayloadTools` | backend/fathom/clients/azure_openai_client.py:145-147 | `tools` is sent exactly when the list is non-empty, and it is then the list |
| `ChatRequest.PayloadToolChoice` | backend/fathom/clients/azure_openai_client.py:148-149 | `tool_choice` is sent exactly when it is not None |
| `ChatRequest.PayloadStream` | backend/fathom/clients/azure_openai_client.py:177 | `stream_chat` sends `stream: true`; `chat` sends no `stream` key |
| `ChatRequest.PutIfLookup` | backend/fathom/clients/azure_openai_client.py:146-149 | a conditional assignment sets its key when it fires and leaves every other key as it was |
| `ChatRequest.HeadersAuth` | backend/fathom/clients/azure_openai_client.py:125-136 | exactly one of `api-key` (when a non-empty key is configured) and `Authorization: Bearer <token>` is sent, always with the JSON content type; streaming adds `Accept: text/event-stream` |
| `StreamDecoder.StreamChat` | backend/fathom/clients/azure_openai_client.py:188-216 | the chunk loop yields exactly the specification's records: those of the complete lines of the decodable text, up to the first `[DONE]` |
| `StreamDecoder.DrainLines` | backend/fathom/clients/azure_openai_client.py:198-216 | the inner loop yields the records of the buffer's complete lines, reports whether `[DONE]` was among them, and otherwise leaves the text after the last newline in the buffer |
| `StreamDecoder.SplitDecoding` | backend/fathom/clients/azure_openai_client.py:192-203 | decoding `x + y` is decoding `x`, then, unless `x` reached `[DONE]`, decoding the rest of `x`'s buffer followed by `y` |
| `StreamDecoder.LinesOfAppend` | backend/fathom/clients/azure_openai_client.py:198-203 | the complete lines of `a + b` are those of `a`, then those of `a`'s leftover text followed by `b` |
| `StreamDecoder.RemainderOfAppend` | backend/fathom/clients/azure_openai_client.py:198-203 | the buffer after `a + b` is the buffer after `a` with `b` appended and cut again |
| `StreamDecoder.DecodeLinesAppend` | backend/fathom/clients/azure_openai_client.py:204-216 | the records of `p + q` are those of `p`, followed by those of `q` unless `p` reached `[DONE]` |
| `StreamDecoder.StopsAppend` | backend/fathom/clients/azure_openai_client.py:209-210 | `p + q` reaches `[DONE]` exactly when `p` or `q` does |
| `StreamDecoder.ChunkBoundaryInvariance` | backend/fathom/clients/azure_openai_client.py:193-195 | cutting one chunk of text in two at a character boundary yields the same records |
| `StreamDecoder.SplitCharacterLosesRecord` | backend/fathom/clients/azure_openai_client.py:193-197 | a record line sent in one chunk is yielded, but when the chunk cut falls inside a multi-byte character both halves fail to decode, are dropped, and the record is lost |
| `StreamDecoder.UndecodableChunkDropped` | backend/fathom/clients/azure_openai_client.py:194-197 | a chunk that fails UTF-8 decoding contributes nothing |
| `StreamDecoder.SkippedLineInvisible` | backend/fathom/clients/azure_openai_client.py:204-207 | a line the decoder skips can be removed without changing the records |
| `StreamDecoder.NonDataLineYieldsNothing` | backend/fathom/clients/azure_openai_client.py:202-207 | a blank line, or one that does not start with `data: ` once stripped, changes nothing |
| `StreamDecoder.MalformedPayloadSkipped` | backend/fathom/clients/azure_openai_client.py:211-216 | a data line whose payload does not parse is skipped and decoding goes on with the next line |
| `StreamDecoder.DoneEndsStream` | backend/fathom/clients/azure_openai_client.py:208-210 | a `data: [DONE]` line ends the stream: nothing after it is yielded |
| `StreamDecoder.TrailingTextNeverParsed` | backend/fathom/clients/azure_openai_client.py:198-201 | text after the last newline is never parsed |
| `StreamDecoder.RemainderHasNoNewline` | backend/fathom/clients/azure_openai_client.py:198-203 | what is left in the buffer holds no newline |
| `StreamDecoder.OneLine` | backend/fathom/clients/azure_openai_client.py:202-216 | a single line yields its parsed payload when it is a data line that parses, and stops exactly when it is `[DONE]` |
| `RunEvents.TokenOf` | backend/fathom/routers/playground.py:91-97 | a chunk contributes a token only when `choices[0].delta.content` is a non-empty string |
| `RunEvents.NoChoicesNoToken` | backend/fathom/routers/playground.py:92-94 | a chunk with no `choices`, or an empty list of them, contributes no token |
| `RunEvents.ContentToken` | backend/fathom/routers/playground.py:95-98 | a chunk whose first choice's delta holds a non-empty string contributes exactly that string |
| `RunEvents.AccumulatedSnoc` | backend/fathom/routers/playground.py:97-98 | each chunk appends its token, if any, to the accumulated text |
| `RunEvents.ContentsSnoc` | backend/fathom/routers/playground.py:97-106 | a chunk with a token adds one content event carrying the whole accumulated text so far; a chunk without one adds none |
| `RunEvents.Opening` | backend/fathom/routers/playground.py:79-106 | the events up to the end of the stream are `RunStarted` followed by one content event per token |
| `RunEvents.OpeningFirst` | backend/fathom/routers/playground.py:79-86 | the run opens with its `RunStarted` event |
| `RunEvents.OpeningAt` | backend/fathom/routers/playground.py:99-106 | the event at position `k + 1` carries the `k`-th streamed content, the model alias and the clock reading of that event |
| `RunEvents.ContentsPrefix` | backend/fathom/routers/playground.py:98-102 | every streamed content is a prefix of the final accumulated text |
| `RunEvents.ContentsEmpty` | backend/fathom/routers/playground.py:121 | nothing was streamed exactly when the accumulated text is empty, which is when the fallback is tried |
| `RunEvents.ContentsLast` | backend/fathom/routers/playground.py:98-106 | the last streamed content is the whole accumulated text |
| `RunEvents.ContentsGrow` | backend/fathom/routers/playground.py:97-106 | each streamed content is strictly longer than every earlier one |
| `RunEvents.ContentsChain` | backend/fathom/routers/playground.py:97-106 | any two streamed contents form a chain: the earlier is a proper prefix of the later |
| `RunEvents.FallbackText` | backend/fathom/routers/playground.py:124-128 | the fallback's text is `choices[0].message.content`, with `[{}]`, `{}` and `""` standing in for what is missing; a response that is not an object raises `AttributeError` |
| `RunEvents.FallbackOutcome` | backend/fathom/routers/playground.py:122-139 | a failed fallback call is reported as it failed; otherwise the extracted text, or the exception extracting it raised |
| `RunEvents.Run` | backend/fathom/routers/playground.py:66-158 | a configuration that fails to load raises before any event; a loaded one yields at least `RunStarted` and one closing event |
| `RunEvents.RunStartsFirst` | backend/fathom/routers/playground.py:72-86 | the first event is `RunStarted` with the run id, the session id, the model alias and the first clock reading |
| `RunEvents.RunOneTerminal` | backend/fathom/routers/playground.py:86-158 | there is exactly one terminal event and it is the last; before it come `RunStarted` and content events only |
| `RunEvents.ConcludeShape` | backend/fathom/routers/playground.py:109-158 | `RunOneTerminal` for whatever closing the stream's end leads to: an error, a fallback answer or plain completion |
| `RunEvents.RunContentChain` | backend/fathom/routers/playground.py:97-138 | the contents of any two content events of a run are strings, and the earlier is a proper prefix of the later |
| `RunEvents.RunCompletedContent` | backend/fathom/routers/playground.py:150-158 | a completed run reports the final accumulated text: the last content event's content, or `""` when there was none |
| `RunEvents.RunStreamFailure` | backend/fathom/routers/playground.py:109-118 | a failing stream ends the run with one `RunError` carrying the exception's text, right after the content streamed so far |
| `RunEvents.FallbackOnlyWhenEmpty` | backend/fathom/routers/playground.py:120-121 | the fallback's outcome matters only when the stream ended normally with nothing streamed |
| `RunEvents.RunRequest` | backend/fathom/routers/playground.py:161-175 | an empty message is refused with status 400; any other becomes the one message of the run |
| `RunEvents.RunRequestMessage` | backend/fathom/routers/playground.py:168-171 | the one message is the user's, with the posted text as its content, whatever session id was posted |
| `RunEvents.StreamTokens` | backend/fathom/routers/playground.py:88-108 | the `async for` loop yields the opening events of the tokens and returns their accumulated text |
| `RunEvents.Finish` | backend/fathom/routers/playground.py:109-158 | the events after the stream are the conclusion the specification gives for the stream failure and fallback outcome |
| `RunEvents.StreamRun` | backend/fathom/routers/playground.py:66-158 | the generator run to completion yields exactly the events, and raises exactly the error, that `Run` specifies |
| `ToolRegistry.ExecuteToolCall` | backend/fathom/tools/registry.py:62-82 | a call succeeds only for the two tool names; any other name fails with `Unknown tool: <name>` |
| `ToolRegistry.CatalogValidation` | backend/fathom/tools/registry.py:68-72 | a catalog call is refused exactly when `tableLike` is blank after `str()` and `strip()`; otherwise it forwards the stripped text, which has no space at either end |
| `ToolRegistry.CatalogMissingArgument` | backend/fathom/tools/registry.py:69-71 | an absent `tableLike` reads as `""` and the call is refused with `Missing required argument: tableLike` |
| `ToolRegistry.CatalogNullArgument` | backend/fathom/tools/registry.py:69 | a JSON `null` `tableLike` is not refused: it is forwarded as the text `None` |
| `ToolRegistry.SqlValidation` | backend/fathom/tools/registry.py:74-80 | an SQL call is refused exactly when `sql` is blank; otherwise it forwards the stripped text, the scalar parameters or `{}` when they are falsy, the query name and a sample limit of 10 |
| `ToolRegistry.UnknownTool` | backend/fathom/tools/registry.py:82 | matching is exact: every other name, a case variant included, fails with `Unknown tool: <name>` |
| `ToolRegistry.FunctionToolDeclares` | backend/fathom/tools/registry.py:13-33 | a function-tool definition declares its name and its one required argument |
| `ToolRegistry.DefinitionsDeclare` | backend/fathom/tools/registry.py:11-59 | exactly two tools are offered: `catalog_get_fields`, which requires `tableLike`, and `sql_execute`, which requires `sql`; these are the names the dispatcher accepts |
| `SqlTool.ColumnKey` | backend/fathom/tools/sql.py:34 | a list-row value beyond the columns is keyed `col_<i>` |
| `SqlTool.ListSampleOf` | backend/fathom/tools/sql.py:32-35 | a successful list-layout sample has one object per row |
| `SqlTool.ListSample` | backend/fathom/tools/sql.py:33-35 | the sample loop builds the specification's sample of the first `sample_limit` rows |
| `SqlTool.ListSampleFailure` | backend/fathom/tools/sql.py:33-35 | the first row that raises makes the whole call raise that exception |
| `SqlTool.ListSampleFailureStays` | backend/fathom/tools/sql.py:33-35 | a sample that raised on a prefix of the rows raises the same on all of them |
| `SqlTool.ZipRowLookupAt` | backend/fathom/tools/sql.py:34 | a row value lands under its key unless a later value of the row takes the same key, as in a dict comprehension |
| `SqlTool.OverflowNamesDistinct` | backend/fathom/tools/sql.py:34 | distinct positions get distinct `col_<i>` names |
| `SqlTool.OverflowColumn` | backend/fathom/tools/sql.py:34 | a list row longer than the columns keeps each extra value under `col_<i>` |
| `SqlTool.ZipRowStrings` | backend/fathom/tools/sql.py:34 | with string column names, converting a list row cannot raise |
| `SqlTool.StrListStrings` | backend/fathom/tools/sql.py:26 | `str()` of a string is that string, so string column names are kept as they are |
| `SqlTool.TablesObjectRows` | backend/fathom/tools/sql.py:22-29 | the `Tables` layout with object rows gives the column names, the first `sample_limit` rows unchanged, and the number of rows |
| `SqlTool.TablesListRows` | backend/fathom/tools/sql.py:30-36 | in the `Tables` layout with list rows, row `k` of the sample is row `k` zipped with the column names |
| `SqlTool.TablesListOutcome` | backend/fathom/tools/sql.py:30-36 | the `Tables` layout with list rows gives the list-layout outcome for its columns |
| `SqlTool.ListSampleSucceeds` | backend/fathom/tools/sql.py:33-35 | with string columns, a sample of list rows cannot raise |
| `SqlTool.ListSampleAt` | backend/fathom/tools/sql.py:33-35 | row `k` of the list-layout sample is the object built from the `k`-th row |
| `SqlTool.RowsKeysOfFirst` | backend/fathom/tools/sql.py:39-44 | the `rows` layout with object rows, no `columns` and a positive sample size names its columns after the keys of the first row, in their order |
| `SqlTool.RowsEmptySampleFails` | backend/fathom/tools/sql.py:39-44 | the same response with a sample size of 0 raises `IndexError`, since `sample[0]` does not exist |
| `SqlTool.ScalarUnstructured` | backend/fathom/tools/sql.py:59-60 | a response that is neither an object nor a list is not recognised |
| `SqlTool.ObjectUnstructured` | backend/fathom/tools/sql.py:22-60 | an object without `Tables` or `rows` is not recognised |
| `SqlTool.RowCountZeroIsUnstructured` | backend/fathom/tools/sql.py:16-60 | every recognised layout has at least one row, so a count of 0 means the response was not recognised |
| `SqlTool.SummarySampleSize` | backend/fathom/tools/sql.py:16-60 | in every layout the sample holds `min(sample_limit, row count)` rows |
| `SqlTool.AddKeysSpec` | backend/fathom/tools/sql.py:56 | collecting key names keeps those seen, adds the new ones, and never adds one twice |
| `SqlTool.KeyUnionSpec` | backend/fathom/tools/sql.py:53-57 | the bare-list layout names every key of every sample row exactly once, and raises `AttributeError` exactly when a sample row is not an object |
| `SqlTool.NormalizeScalarParameters` | backend/fathom/tools/sql.py:89-107 | the parameters sent are always an object: an object is kept, and anything that is neither an object nor a string gives `{}` |
| `SqlTool.NormalizeRetry` | backend/fathom/tools/sql.py:93-107 | a non-blank string is parsed after stripping; only when that fails is it parsed again with `'` replaced by `"`; a parse that is not an object gives `{}` |
| `SqlTool.NormalizeBlank` | backend/fathom/tools/sql.py:93 | a blank string of parameters sends `{}` |
| `SqlTool.SqlResultData` | backend/fathom/tools/sql.py:108-120 | the query receives an object of parameters; the raw response is returned under `data` exactly when no layout was recognised, and `row_count` is the recognised row count |
| `SqlTool.SqlResultFields` | backend/fathom/tools/sql.py:113-120 | the result's `row_count` is the summary's count, and `data` is the raw response when the count is 0, otherwise `null` |
| `Compact.CompactCatalogGetFields` | backend/fathom/tools/compact.py:13-34 | the compact catalog text is the header line, one line per entry that has text, and the first `has_more` line, joined by newlines, or the exception raised |
| `Compact.EntryLines` | backend/fathom/tools/compact.py:19-25 | the loop appends, in order, the line of each entry that has any text, and stops at the first entry that raises |
| `Compact.FirstHasMore` | backend/fathom/tools/compact.py:29-33 | the loop yields the line for the first truthy flag and nothing when no flag is truthy |
| `Compact.CollectLinesStep` | backend/fathom/tools/compact.py:19-25 | one more entry adds its line, or nothing when it is skipped, or ends the loop with its exception |
| `Compact.CollectLinesFailureStays` | backend/fathom/tools/compact.py:19-25 | an exception raised on some entry is the exception of the whole loop |
| `Compact.CatalogStartsWithHeader` | backend/fathom/tools/compact.py:14-16 | the compact catalog text starts with `tool: catalog_get_fields  table_like: ` and the table pattern |
| `Compact.CatalogLineSpec` | backend/fathom/tools/compact.py:7-10 | an entry is skipped exactly when name, type and description are all empty after stripping; otherwise its line is `name\|type\|description` with the description at most 160 characters and whole when it fits |
| `Compact.CollectLinesSpec` | backend/fathom/tools/compact.py:19-25 | there is at most one line per entry, and exactly one, in entry order, when no entry is skipped |
| `Compact.HasMoreLineSpec` | backend/fathom/tools/compact.py:29-33 | the `has_more` line is absent exactly when no flag is truthy, and otherwise names the first table whose flag is truthy |
| `Compact.CompactSqlExecute` | backend/fathom/tools/compact.py:37-78 | the compact SQL text is the head lines and one line per sample row joined by newlines, or the exception raised |
| `Compact.RenderRows` | backend/fathom/tools/compact.py:65-76 | the loop gives one line per sample row, in order |
| `Compact.SqlHeadLayout` | backend/fathom/tools/compact.py:46-56 | the text starts with `tool: sql_execute`; the `args.sql:` block appears exactly when the SQL is truthy and the `args.scalar_parameters:` block exactly when the parameter text is not empty; then `row_count:<n>` and `sample_rows:` |
| `Compact.SqlRowLines` | backend/fathom/tools/compact.py:59-76 | after the head lines comes exactly one line per sample row, in order, each rendered by the key order |
| `Compact.KeyOrderSpec` | backend/fathom/tools/compact.py:60-63 | with an object first row the key order is sorted and is a permutation of that row's keys |
| `Compact.RowValuesMissing` | backend/fathom/tools/compact.py:67 | an object row lacking a key shows `""` in that key's place |
| `Compact.RowLineExample` | backend/fathom/tools/compact.py:66-68 | an object row is shown by the sorted key order, not by the order of its own entries |
| `Compact.PipedPair` | backend/fathom/tools/compact.py:68-70 | two values are shown as their `str()` texts separated by ` \| ` |
| `Compact.ScalarEntriesSpec` | backend/fathom/tools/compact.py:88 | the summary of another tool's result keeps exactly the entries with scalar values, in result order |
| `Compact.BuildPromptContextCase` | backend/fathom/tools/compact.py:81-86 | tool names that agree once stripped and lower-cased select the same compaction |
| `TasksCompact.AsStr` | backend/fathom/tools/tasks_compact.py:7-18 | `None` reads as the empty text and a string as itself |
| `TasksCompact.DGet` | backend/fathom/tools/tasks_compact.py:30-31 | `.get` succeeds exactly on an object, and raises on anything else |
| `TasksCompact.KeysOf` | backend/fathom/tools/tasks_compact.py:29-31 | there is one group key per task, or the first exception raised |
| `TasksCompact.GroupKeysSpec` | backend/fathom/tools/tasks_compact.py:27-33 | the groups' keys are the task keys, each once, in order of first appearance |
| `TasksCompact.GroupMembersSpec` | backend/fathom/tools/tasks_compact.py:32 | each group holds exactly the tasks with its key, in input order |
| `TasksCompact.GroupTotalSpec` | backend/fathom/tools/tasks_compact.py:27-33 | the groups hold every task exactly once, and no group is empty |
| `TasksCompact.DedupSpec` | backend/fathom/tools/tasks_compact.py:32 | the group keys are distinct, and a key is among them exactly when it is some task's key |
| `TasksCompact.AddToKeys` | backend/fathom/tools/tasks_compact.py:32 | `setdefault` adds a key at the end only when it is new |
| `TasksCompact.AddToMembers` | backend/fathom/tools/tasks_compact.py:32 | appending a task changes only its own key's group, at the end |
| `TasksCompact.GroupByUltimateParent` | backend/fathom/tools/tasks_compact.py:27-33 | the grouping loop computes the groups of the tasks' ultimate-parent keys, or the first exception raised |
| `TasksCompact.GroupsOfSpec` | backend/fathom/tools/tasks_compact.py:27-33 | keys in first-appearance order, each group exactly the tasks with its key in input order, no task lost and no group empty |
| `TasksCompact.NonNullStrs` | backend/fathom/tools/tasks_compact.py:41-42 | the correlation ids of a task are at most its listed values, `None` dropped |
| `TasksCompact.FieldPairs` | backend/fathom/tools/tasks_compact.py:121-126 | the field loop gives one `name=value` pair per field with a name, in order |
| `TasksCompact.FieldsLineOf` | backend/fathom/tools/tasks_compact.py:119-128 | computes the `fields:` line of a task, if any |
| `TasksCompact.TaskLines` | backend/fathom/tools/tasks_compact.py:93-143 | computes the lines of one task |
| `TasksCompact.GroupLines` | backend/fathom/tools/tasks_compact.py:74-143 | computes the lines of one group: its `parent\|` line then each member's lines |
| `TasksCompact.BuildCompactTaskContext` | backend/fathom/tools/tasks_compact.py:55-145 | a non-list or empty task list gives `task_context:v1` and `(empty)`; otherwise the header and the group blocks joined by newlines, or the exception raised |
| `TasksCompact.ContextStartsWithHeader` | backend/fathom/tools/tasks_compact.py:71 | the context always starts with the `task_context:v1` header, which later runs look for |
| `TasksCompact.ChildrenCount` | backend/fathom/tools/tasks_compact.py:87 | the `children:` count of a group is the number of tasks sharing its key, less one |
| `TasksCompact.RepresentativeSpec` | backend/fathom/tools/tasks_compact.py:76 | the parent shown is the first member whose id is the group key, and otherwise the first member |
| `TasksCompact.TaskBlockShape` | backend/fathom/tools/tasks_compact.py:103-143 | a task's block is its `task\|` line, then at most a `fields:` line and a `meta:` line |
| `TasksCompact.TaskBlockTags` | backend/fathom/tools/tasks_compact.py:103-143 | a task's block holds one `task\|` line and no `parent\|` line |
| `TasksCompact.GroupBlockTags` | backend/fathom/tools/tasks_compact.py:79-143 | a group's block holds one `parent\|` line and one `task\|` line per member |
| `TasksCompact.ContextTags` | backend/fathom/tools/tasks_compact.py:71-145 | the context holds one `task\|` line per input task, parents included, and one `parent\|` line per distinct group key |
| `TasksCompact.ContextShape` | backend/fathom/tools/tasks_compact.py:71-74 | the context lines are the header followed by the blocks of the groups in order |
| `TasksCompact.CollectLinesEmpty` | backend/fathom/tools/tasks_compact.py:127 | no `kv` pair is collected exactly when every field is skipped |
| `TasksCompact.FieldPairSpec` | backend/fathom/tools/tasks_compact.py:123-126 | a field gives a pair exactly when its name reads as non-empty text; the pair is `name=value` with the value cut to at most 256 characters |
| `TasksCompact.FieldsLineSpec` | backend/fathom/tools/tasks_compact.py:119-128 | the `fields:` line appears exactly when `fields` is a list holding a field with a non-empty name |
| `TasksCompact.NonNullSpec` | backend/fathom/tools/tasks_compact.py:141 | the filtered meta holds exactly the entries whose value is not `None` |
| `TasksCompact.VersionMetaSpec` | backend/fathom/tools/tasks_compact.py:137-140 | the `version.*` entries are the listed version keys whose value is not `None` |
| `TasksCompact.MetaSpec` | backend/fathom/tools/tasks_compact.py:131-141 | the meta entries are exactly the four log and transition keys and, when `version` is an object, the four `version.*` keys, each only with a value other than `None` |
| `TasksCompact.KvPairsSpec` | backend/fathom/tools/tasks_compact.py:46-52 | one `k=v` per entry with a value, in order, the value cut to 256 characters; filtering out `None` first changes nothing |
| `TasksCompact.MetaLineSpec` | backend/fathom/tools/tasks_compact.py:141-143 | the `meta:` line appears exactly when some meta entry has a value |
| `TasksCompact.NonNullIdempotent` | backend/fathom/tools/tasks_compact.py:141 | removing `None` values twice is removing them once |
| `TasksCompact.TaskPartsBounds` | backend/fathom/tools/tasks_compact.py:103-116 | a `task\|` line has eight parts, the name at most 160 characters and the state, creation instant and stacking key at most 64 |
| `TasksCompact.ParentPartsBounds` | backend/fathom/tools/tasks_compact.py:79-91 | a `parent\|` line has seven parts, the name at most 160 characters and the state and creation instant at most 64 |
| `Tasks.ByCreatedTextTotal` | backend/fathom/routers/tasks.py:36-40 | comparing the roots' `asAtCreated` texts is a total preorder, so the sort is well defined |
| `Tasks.ByCreatedTimeTotal` | agent-ui/src/lib/mockTasks.ts:425-428 | comparing the roots' creation instants is a total preorder |
| `Tasks.GroupByUltimateParent` | backend/fathom/routers/tasks.py:12-40 | the two passes and the sort compute the groups of the tasks, sorted greatest first |
| `Tasks.RootsPass` | backend/fathom/routers/tasks.py:16-25 | the first pass makes one group with no children and a count of 1 for the first task of each root id, in input order, and indexes them by id |
| `Tasks.ChildrenPass` | backend/fathom/routers/tasks.py:27-33 | after the second pass each group holds its root's children in input order and counts them plus the root |
| `Tasks.IndexAdd` | backend/fathom/routers/tasks.py:20-25 | registering a new root id keeps the id index in step with the groups created |
| `Tasks.RootsPrefix` | backend/fathom/routers/tasks.py:17-25 | a root found among the first tasks stays a root of the whole list |
| `Tasks.RootsAreRoots` | backend/fathom/routers/tasks.py:18 | every group is headed by an input task with no ultimate parent or that is its own ultimate parent |
| `Tasks.RootsDistinct` | backend/fathom/routers/tasks.py:20 | no two groups share a root id |
| `Tasks.RootsIds` | backend/fathom/routers/tasks.py:18-21 | an id heads a group exactly when some root task of the input carries it |
| `Tasks.RootsFirstWins` | backend/fathom/routers/tasks.py:20 | of several root tasks sharing an id, the first one heads the group |
| `Tasks.ChildrenSpec` | backend/fathom/routers/tasks.py:29-32 | a task is a child of an id exactly when it is an input task other than a root naming that id as its ultimate parent |
| `Tasks.GroupMembership` | backend/fathom/routers/tasks.py:21-33 | group `k` is headed by the `k`-th root, holds exactly that root's children and counts them plus one |
| `Tasks.ExactlyOneGroup` | backend/fathom/routers/tasks.py:28-32 | a child whose ultimate parent heads a group is in exactly one group |
| `Tasks.OrphanDropped` | backend/fathom/routers/tasks.py:31 | a child whose ultimate parent heads no group appears in no group |
| `Tasks.GroupTasksSpec` | backend/fathom/routers/tasks.py:36-40 | the groups come out sorted greatest first, as a permutation of the unsorted groups, with ties kept in first-appearance order |
| `Tasks.BackendNewestFirst` | backend/fathom/routers/tasks.py:35-40 | the backend lists the group with the greatest `asAtCreated` text first |
| `Tasks.UiNewestFirst` | agent-ui/src/lib/mockTasks.ts:425-428 | the UI lists the group with the latest creation instant first |
| `Tasks.SortedGroupCounts` | backend/fathom/routers/tasks.py:33 | every sorted group counts its children plus itself and is headed by a root |
| `TaskRouter.ParseList` | backend/fathom/routers/tasks.py:71-72 | a list parameter is absent exactly when it was not given or is empty |
| `TaskRouter.ParseListRoundTrip` | backend/fathom/routers/tasks.py:71-72 | joining the split parts with `,` gives back the parameter |
| `TaskRouter.GetTasksSpec` | backend/fathom/routers/tasks.py:76-92 | a failed fetch is an HTTP 500 `Failed to fetch tasks: ...`; otherwise the response counts the filtered tasks and the groups, which are the filtered tasks' distinct root ids |
| `TaskRouter.DatesAndStatesIgnored` | backend/fathom/clients/lusid_client.py:66-89 | the local filter ignores the date range and the states: filters that differ only there keep the same tasks |
| `LusidFilter.KeepSpec` | backend/fathom/clients/lusid_client.py:73-80 | a comprehension keeps an element exactly when it is in the input and passes |
| `LusidFilter.KeepAppend` | backend/fathom/clients/lusid_client.py:73-80 | keeping distributes over concatenation, so the kept elements stay in input order |
| `LusidFilter.KeepLength` | backend/fathom/clients/lusid_client.py:73-80 | filtering never lengthens the list |
| `LusidFilter.KeepKeep` | backend/fathom/clients/lusid_client.py:71-87 | filtering by search and then by batch is filtering once by both tests |
| `LusidFilter.KeepAll` | backend/fathom/clients/lusid_client.py:73-80 | a test every task passes keeps the list unchanged |
| `LusidFilter.FilterIsKeep` | backend/fathom/clients/lusid_client.py:66-89 | the filtered list is the input kept by the conjunction of the active filters |
| `LusidFilter.KeepSame` | backend/fathom/clients/lusid_client.py:73-80 | two tests agreeing on every task keep the same tasks |
| `LusidFilter.FilterSpec` | backend/fathom/clients/lusid_client.py:66-89 | a task is kept exactly when it is an input task whose lower-cased name, state or a field contains the lower-cased query, when there is one, and that shares a correlation id with the filter, when it has some; with neither set the list is unchanged |
| `LusidFilter.FilterAppend` | backend/fathom/clients/lusid_client.py:66-89 | filtering a concatenation filters each part, so the order of the input is kept |
| `TranscriptStore.EncodedLines` | backend/fathom/storage/azure_storage.py:94 | a payload has one serialised line per message |
| `TranscriptStore.EmptyPieceNoMessages` | backend/fathom/storage/azure_storage.py:79-82 | an empty blob, or the empty piece after the final line break, holds no message |
| `TranscriptStore.LineMessagesAppend` | backend/fathom/storage/azure_storage.py:79-87 | the lines of two parts read as the messages of each part, in order |
| `TranscriptStore.LineMessagesSnoc` | backend/fathom/storage/azure_storage.py:79-87 | one more line adds its message, or nothing when it is blank or malformed |
| `TranscriptStore.LineMessagesEncoded` | backend/fathom/storage/azure_storage.py:84 | the serialised lines of some messages read back as those messages |
| `TranscriptStore.PayloadMessages` | backend/fathom/storage/azure_storage.py:94 | a payload cuts into its message lines and a final empty piece, and loads as its messages |
| `TranscriptStore.MessagesAcrossBreak` | backend/fathom/storage/azure_storage.py:79-87 | lines glued at an empty piece read as the two parts read separately |
| `TranscriptStore.TranscriptAppend` | backend/fathom/storage/azure_storage.py:96-107 | text appended after a line break is read on its own: the messages of both parts, in order |
| `TranscriptStore.TranscriptRoundTrip` | backend/fathom/storage/azure_storage.py:68-107 | a transcript that is empty or ends in a line break, followed by a payload, loads as the old messages then the new ones, whenever each message serialises to one line free of break characters |
| `TranscriptStore.JsonLinesRoundTrip` | backend/fathom/storage/azure_storage.py:68-107 | corrected reading: lines that end at `\n` round-trip every appended message, since JSON escapes `\n` |
| `TranscriptStore.SplitLinesLosesMessage` | backend/fathom/storage/azure_storage.py:79-87 | the message `" "`, written raw by `ensure_ascii=False`, loads under `\n` lines but is lost under `splitlines` |
| `TranscriptStore.SplitLinesPieces` | backend/fathom/storage/azure_storage.py:79 | `splitlines` cuts the line `"` U+2028 `"` into two pieces `"` |
| `TranscriptStore.ReadLines` | backend/fathom/storage/azure_storage.py:78-88 | the loop keeps, in order, the parsed message of every line that is not blank and parses |
| `TranscriptStore.AppendedTerminated` | backend/fathom/storage/azure_storage.py:94 | every non-empty append ends the blob with `\n`, so the next one starts on a line of its own |
| `TranscriptStore.AppendThenLoad` | backend/fathom/storage/azure_storage.py:68-107 | as written (`splitlines`): appending then loading a session gives back what it held before followed by the appended messages, for messages whose serialised text holds no character `splitlines` breaks at |
| `TranscriptStore.StoredLosesMessage` | backend/fathom/storage/azure_storage.py:68-87 | as written, a new session holding only the message `"` U+2028 `"` loads as no messages, while the corrected reading returns it |
| `TranscriptStore.AppendThenLoadJsonLines` | backend/fathom/storage/azure_storage.py:68-107 | corrected reading (`\n` lines, `StoredJsonLines`): appending then loading gives back what the session held before followed by every appended message |
| `TranscriptStore.RowIndex` | backend/fathom/storage/azure_storage.py:117-120 | the first row whose `RowKey` is the session id, or -1 exactly when no row has it |
| `TranscriptStore.IntOf` | backend/fathom/storage/azure_storage.py:154 | `int()` keeps an integer count, and an absent count reads as 0 |
| `TranscriptStore.TouchedSpec` | backend/fathom/storage/azure_storage.py:143-159 | touching changes at most the first row of the session, there only its update time and its count, which rises by the increment when one is asked for; the keys stay unique |
| `TranscriptStore.TouchUnreadableCount` | backend/fathom/storage/azure_storage.py:155-156 | a stored count that `int()` refuses restarts at the increment |
| `TranscriptStore.RemoveRowsSpec` | backend/fathom/storage/azure_storage.py:214-219 | deleting keeps exactly the rows of other sessions, so none of the session remains |
| `TranscriptStore.RemoveRowsUnique` | backend/fathom/storage/azure_storage.py:214-219 | deleting rows keeps the table's keys unique |
| `TranscriptStore.MatchingSpec` | backend/fathom/storage/azure_storage.py:197-198 | the query returns exactly the agent's rows whose day key lies in the window |
| `TranscriptStore.ByUpdatedTotal` | backend/fathom/storage/azure_storage.py:200 | ordering by `UpdatedAt` is a total preorder |
| `TranscriptStore.PrefixTo` | backend/fathom/storage/azure_storage.py:202 | `s[:limit]` is a prefix whose length is the limit capped by the length, a negative limit counting back from the end |
| `TranscriptStore.ListedRowsSpec` | backend/fathom/storage/azure_storage.py:189-208 | the listed sessions are the agent's sessions in the window, most recently updated first, at most `limit` of them, and all of them when the limit is not smaller |
| `TranscriptStore.ListedTiesInTableOrder` | backend/fathom/storage/azure_storage.py:200 | sessions updated in the same second keep the order the table returned them in |
| `TranscriptStore.AzureStorage.constructor` | backend/fathom/storage/azure_storage.py:28-60 | the store starts over the given container and table |
| `TranscriptStore.AzureStorage.LoadTranscript` | backend/fathom/storage/azure_storage.py:68-88 | the loaded messages are the parsed non-blank `splitlines` lines of the session blob (`StoredTranscript`), none when there is no blob |
| `TranscriptStore.AzureStorage.AppendMessages` | backend/fathom/storage/azure_storage.py:90-107 | an empty list changes nothing; otherwise the payload is added after whatever the blob held, and the table is untouched |
| `TranscriptStore.AzureStorage.CreateSession` | backend/fathom/storage/azure_storage.py:124-141 | a new row for today with `Title` or `""`, the blob address, equal creation and update times and no messages; refused when today already holds the id |
| `TranscriptStore.AzureStorage.TouchSession` | backend/fathom/storage/azure_storage.py:143-159 | the table becomes the touched table and the keys stay unique |
| `TranscriptStore.AzureStorage.EnsureSession` | backend/fathom/storage/azure_storage.py:161-187 | an existing session is reused without a write; a named missing session gets a row under that id; no id creates a new session |
| `TranscriptStore.AzureStorage.ListSessions` | backend/fathom/storage/azure_storage.py:201-208 | one summary of id, title and creation time per listed row, in order |
| `TranscriptStore.AzureStorage.DeleteSession` | backend/fathom/storage/azure_storage.py:210-228 | every row of the session and its blob are removed |
| `TaskStore.FindGroup` | agent-ui/src/store.ts:180-181 | the group found is a stored group with that root id, and none is found exactly when no stored group has it |
| `TaskStore.CountIdAppend` | agent-ui/src/store.ts:159-166 | the number of selected tasks carrying an id adds up over concatenation |
| `TaskStore.CountIdNone` | agent-ui/src/store.ts:163-166 | a selection with no task carrying an id counts it zero times |
| `TaskStore.WithoutIdsSpec` | agent-ui/src/store.ts:161-186 | the filters keep exactly the tasks whose id is not among the removed ids |
| `TaskStore.AddTaskSpec` | agent-ui/src/store.ts:159-162 | after adding, exactly one task carries the id, the new one, placed last; the others are the old selection without that id, in order |
| `TaskStore.RemoveTaskSpec` | agent-ui/src/store.ts:163-166 | removing drops every task with the id and keeps the others in order |
| `TaskStore.AddGroupSpec` | agent-ui/src/store.ts:167-177 | adding a group ends the selection with its root and then its children in order, after the old selection without any of the group's ids |
| `TaskStore.RemoveGroupSpec` | agent-ui/src/store.ts:178-189 | with no stored group of that root the selection is unchanged; otherwise exactly the tasks carrying the root id or one of its stored children's ids are removed |
| `TaskStore.MergeSpec` | agent-ui/src/store.ts:190-193 | every key given in the partial filter overwrites, even with `undefined`; every key left out keeps its value |
| `TaskStore.MergeLaws` | agent-ui/src/store.ts:190-193 | merging the empty partial changes nothing, merging twice is merging once, and two merges are one merge of the combined partial |
| `TaskStore.PlaygroundStore.constructor` | agent-ui/src/store.ts:127-156 | the store starts with no selected tasks, no groups, the empty filter and the endpoint `http://localhost:7777` |
| `TaskStore.PlaygroundStore.AddSelectedTask` | agent-ui/src/store.ts:159-162 | the selection becomes the added selection, and nothing else changes |
| `TaskStore.PlaygroundStore.RemoveSelectedTask` | agent-ui/src/store.ts:163-166 | the selection loses the task's id, and nothing else changes |
| `TaskStore.PlaygroundStore.AddSelectedTaskGroup` | agent-ui/src/store.ts:167-177 | the selection becomes the selection with the group added, and nothing else changes |
| `TaskStore.PlaygroundStore.RemoveSelectedTaskGroup` | agent-ui/src/store.ts:178-189 | the selection loses the stored group's tasks, and nothing else changes |
| `TaskStore.PlaygroundStore.SetTaskFilter` | agent-ui/src/store.ts:190-193 | the filter becomes the old filter merged with the partial, and nothing else changes |
| `TaskStore.PlaygroundStore.SetTaskGroups` | agent-ui/src/store.ts:194-195 | the groups are replaced, and nothing else changes |
| `TaskStore.PlaygroundStore.ClearSelectedTasks` | agent-ui/src/store.ts:196-206 | the selection is emptied and the persisted endpoint is unchanged |
| `TaskPanel.FooterOf` | agent-ui/src/components/playground/TaskPanel/TaskPanel.tsx:135-136 | the footer counts the groups shown, and says "groups" exactly when that count is not 1 |
| `TaskPanel.FilteredSpec` | agent-ui/src/components/playground/TaskPanel/TaskPanel.tsx:31-94 | a group is shown exactly when it is stored and passes every active filter; filtering keeps the stored order and never adds a group |
| `TaskPanel.NoFilterShowsAll` | agent-ui/src/components/playground/TaskPanel/TaskPanel.tsx:31-94 | with no filter given every stored group is shown |
| `TaskPanel.StatesSpec` | agent-ui/src/components/playground/TaskPanel/TaskPanel.tsx:83-91 | the state filter keeps a group exactly when its root's or some child's state is one of the listed texts, compared case-sensitively |
| `TaskPanel.DateWindowInclusive` | agent-ui/src/components/playground/TaskPanel/TaskPanel.tsx:33-51 | a group created on the first or the last day of the window passes the date filter |
| `TaskPanel.PanelSearchWithinClientSearch` | agent-ui/src/components/playground/TaskPanel/TaskPanel.tsx:54-65 | a group the panel's search shows has a task, root or child, that the backend's search would keep |
| `TaskPanel.ChildCorrelationIdsSpec` | agent-ui/src/components/playground/TaskPanel/TaskPanel.tsx:70 | an id is among the children's correlation ids exactly when some child carries it |
| `TaskPanel.BatchSpec` | agent-ui/src/components/playground/TaskPanel/TaskPanel.tsx:68-80 | the batch filter keeps a group exactly when its root or some child shares an id with the filter |
| `TaskPanel.TotalTasksAppend` | agent-ui/src/components/playground/TaskPanel/TaskPanel.tsx:136 | the total task count adds up over concatenation |
| `TaskPanel.FooterBounds` | agent-ui/src/components/playground/TaskPanel/TaskPanel.tsx:135-136 | with every count at least one, the footer's total is at least the number of groups shown and at most the stored total |
| `BatchFilter.WithoutSpec` | agent-ui/src/components/playground/TaskPanel/BatchFilter.tsx:27 | unselecting keeps exactly the other batches |
| `BatchFilter.WithoutAbsent` | agent-ui/src/components/playground/TaskPanel/BatchFilter.tsx:27 | removing a batch that is not selected leaves the list as it is |
| `BatchFilter.WithoutNoDuplicates` | agent-ui/src/components/playground/TaskPanel/BatchFilter.tsx:27 | removing a batch keeps the list free of duplicates |
| `BatchFilter.ToggleSpec` | agent-ui/src/components/playground/TaskPanel/BatchFilter.tsx:24-33 | a toggle flips whether the batch is selected and leaves every other batch and the rest of the filter as they were; an emptied list is stored as `undefined` |
| `BatchFilter.ToggleAppends` | agent-ui/src/components/playground/TaskPanel/BatchFilter.tsx:28 | an unselected batch is appended at the end |
| `BatchFilter.ToggleTwice` | agent-ui/src/components/playground/TaskPanel/BatchFilter.tsx:24-33 | toggling the same batch twice selects the same batches again, and the very same list when it was not selected |
| `BatchFilter.ClearSpec` | agent-ui/src/components/playground/TaskPanel/BatchFilter.tsx:35-38 | clearing leaves no batch selected and the button reading `All batches` |
| `BatchFilter.DisplayTextSpec` | agent-ui/src/components/playground/TaskPanel/BatchFilter.tsx:40-48 | the button reads `All batches` exactly when none is selected or the one selected batch bears that name; with two or more it reads their count and `batches` |
| `TaskChips.BucketIndex` | agent-ui/src/components/playground/TaskPanel/TaskChips.tsx:20 | the position of the bucket with a key, or -1 exactly when no bucket has it |
| `TaskChips.KeepNone` | agent-ui/src/components/playground/TaskPanel/TaskChips.tsx:18-25 | a bucket key that no task has collects no task |
| `TaskChips.PushPreserves` | agent-ui/src/components/playground/TaskPanel/TaskChips.tsx:19-23 | pushing a task to its key's bucket keeps the keys distinct, every bucket non-empty and each bucket exactly the tasks with its key in selection order |
| `TaskChips.BucketedSpec` | agent-ui/src/components/playground/TaskPanel/TaskChips.tsx:18-25 | the buckets of a selection have distinct keys, none is empty, each holds exactly the tasks with its key in selection order, and every task's key has a bucket |
| `TaskChips.ExactlyOneBucket` | agent-ui/src/components/playground/TaskPanel/TaskChips.tsx:18-25 | every selected task lands in exactly one bucket, the one of its key |
| `TaskChips.BucketTasks` | agent-ui/src/components/playground/TaskPanel/TaskChips.tsx:18-25 | the `reduce` over the selection computes the buckets of the selection |
| `TaskChips.Representative` | agent-ui/src/components/playground/TaskPanel/TaskChips.tsx:49 | the chip's parent is one of the bucket's tasks |
| `TaskChips.FirstWithId` | agent-ui/src/components/playground/TaskPanel/TaskChips.tsx:49 | `find` gives a position in the bucket or -1 |
| `TaskChips.FirstWithIdSpec` | agent-ui/src/components/playground/TaskPanel/TaskChips.tsx:49 | `find` gives the first task with the id, and -1 exactly when none has it |
| `TaskChips.RepresentativeSpec` | agent-ui/src/components/playground/TaskPanel/TaskChips.tsx:49 | the chip's parent is the first task of the bucket whose id is the key, and the first task when none is |
| `TaskChips.ChipBarOf` | agent-ui/src/components/playground/TaskPanel/TaskChips.tsx:13-15 | nothing is shown exactly when no task is selected |
| `TaskChips.ChipBarSpec` | agent-ui/src/components/playground/TaskPanel/TaskChips.tsx:27-74 | the header counts the selection; there is one chip per bucket; a chip is a group chip exactly when its bucket holds more than one task, and then shows the bucket's size and a parent from it; otherwise it shows the bucket's one task |
| `TaskChips.RemoveEachSpec` | agent-ui/src/components/playground/TaskPanel/TaskChips.tsx:58-60 | removing ids one at a time removes exactly the tasks carrying one of them |
| `TaskChips.IdsOfSpec` | agent-ui/src/components/playground/TaskPanel/TaskChips.tsx:59 | an id is among a list's ids exactly when some task of the list carries it |
| `TaskChips.RemoveGroupChip` | agent-ui/src/components/playground/TaskPanel/TaskChips.tsx:58-60 | removing a group chip drops every task sharing an id with its bucket and keeps the others |
| `TaskChips.ClearAllEmpties` | agent-ui/src/components/playground/TaskPanel/TaskChips.tsx:37-39 | `Clear all` leaves nothing selected |
| `TaskChips.FieldValue` | agent-ui/src/components/playground/TaskPanel/TaskChips.tsx:87-88 | a field value found comes from a field of that name, and none is found when no field has the name |
| `TaskChips.LabelOf` | agent-ui/src/components/playground/TaskPanel/TaskChips.tsx:87-115 | a single chip shows the display name exactly when neither the portfolio code nor the ticker is shown |
| `TaskChips.FieldValueFirst` | agent-ui/src/components/playground/TaskPanel/TaskChips.tsx:87-88 | the first field of a name wins: later fields of the same name are never shown |
| `TaskItems.VariantSpec` | agent-ui/src/components/playground/TaskPanel/TaskGroupItem.tsx:37-50 | the badge depends only on the lower-cased state: completed and resolved give the default badge, pending the outlined one and every other state the secondary one; no state is destructive |
| `TaskItems.IconsAgree` | agent-ui/src/components/playground/TaskPanel/TaskItem.tsx:18-32 | the two rows' icons agree on every state but `searching errors`, which only the group row colours orange; the icon is green exactly when the badge is the default one and blue exactly when it is outlined |
| `TaskItems.IsSelectedIds` | agent-ui/src/components/playground/TaskPanel/TaskItem.tsx:52 | a row reads as selected exactly when its id is among the selected ids |
| `TaskItems.GroupSelectedIds` | agent-ui/src/components/playground/TaskPanel/TaskGroupItem.tsx:59-60 | a group reads as selected exactly when its root's and all its children's ids are among the selected ids |
| `TaskItems.AddGroupSelects` | agent-ui/src/components/playground/TaskPanel/TaskGroupItem.tsx:64-70 | after `Select Group` on an unselected group, the group reads as selected |
| `TaskItems.GroupToggleSpec` | agent-ui/src/components/playground/TaskPanel/TaskGroupItem.tsx:64-70 | the group button selects an unselected group, unselects a selected group the stored groups know, and changes nothing for a selected group they do not know |
| `TaskItems.GroupHeaderOf` | agent-ui/src/components/playground/TaskPanel/TaskGroupItem.tsx:87-131 | the expander is disabled and the child count hidden exactly when the group has no children; the count shown is the number of children; the button reads `Selected` exactly when the group is selected |
| `TaskItems.TaskToggleSpec` | agent-ui/src/components/playground/TaskPanel/TaskItem.tsx:61-67 | the row's button flips its own selection and leaves every task of another id as it was |
| `TaskItems.InstrumentLineSpec` | agent-ui/src/components/playground/TaskPanel/TaskItem.tsx:101-104 | the instrument line reads `ticker (name)` with both, the one that is set with one, and is absent with neither |
| `TaskItems.ErrorPreview` | agent-ui/src/components/playground/TaskPanel/TaskItem.tsx:112 | the error shows as its first 60 characters followed by `...`, whole when it is shorter |
| `TaskItems.ItemDetailsSpec` | agent-ui/src/components/playground/TaskPanel/TaskItem.tsx:56-59 | the error comes from the first `Error` field, is shown exactly when its value is a non-empty text, and shows as its preview |
| `TaskItems.FieldValueAt` | agent-ui/src/components/playground/TaskPanel/TaskItem.tsx:56-59 | the value shown for a name is that of the first field of that name |
| `MessageItem.AgentContentPriority` | agent-ui/src/components/playground/ChatArea/Messages/MessageItem.tsx:21-72 | a streaming error wins over everything; otherwise non-empty content is shown as markdown; otherwise a spoken response's non-empty transcript; the thinking loader shows exactly when none of these is there |
| `MessageItem.StreamingErrorText` | agent-ui/src/components/playground/ChatArea/Messages/MessageItem.tsx:21-31 | the error notice reads `Oops! Something went wrong while streaming. ` followed by the store's message, or the advice to refresh when there is none |
| `MessageItem.KeysDiffer` | agent-ui/src/components/playground/ChatArea/Messages/MessageItem.tsx:99 | the chat's bucketing (`??`) and the chip bar's (`\|\|`) differ exactly on tasks whose parent id is the empty text |
| `MessageItem.AttachedChipsSpec` | agent-ui/src/components/playground/ChatArea/Messages/MessageItem.tsx:93-133 | chips appear exactly when tasks are attached, one per bucket of parent ids; a chip is a group exactly when its bucket has more than one task, and then shows the representative's name and the bucket's size; a single chip shows that task's portfolio and ticker, or its display name |
| `MockTasks.RootsSnoc` | agent-ui/src/lib/mockTasks.ts:401-412 | one more task adds a root exactly when it is a root with a new id |
| `MockTasks.ChildrenSnoc` | agent-ui/src/lib/mockTasks.ts:415-423 | one more task joins a parent's children exactly when it names that parent and is not a root |
| `MockTasks.FirstRootChildren` | agent-ui/src/lib/mockTasks.ts:415-423 | in the five mock tasks the first root's children are the three in the middle, in order |
| `MockTasks.SecondRootChildren` | agent-ui/src/lib/mockTasks.ts:415-423 | in the five mock tasks the second root has no children |
| `MockTasks.TwoRootsGrouped` | agent-ui/src/lib/mockTasks.ts:397-424 | two roots around three children of the first group as the first root with its three children and a count of 4, then the second alone with a count of 1 |
| `MockTasks.TwoGroupsSorted` | agent-ui/src/lib/mockTasks.ts:425-428 | two groups already newest first, or tied, keep their order |
| `MockTasks.MockGroups` | agent-ui/src/lib/mockTasks.ts:5-429 | the mock tasks group as the first parent with its three children and the other parent alone, whenever the first parent is not read as created after the other |
| `MockTasks.GetMockTaskGroups` | agent-ui/src/lib/mockTasks.ts:446-448 | two groups: the parent `2b888027-…` with the children `0006c6c2-…`, `1234c6c2-…` and `5678c6c2-…` in that order and a count of 4, then `ac6f4add-…` with none and a count of 1 |
| `Sorting.SortDescSorted` | backend/fathom/routers/tasks.py:36-40 | the sort orders greatest first |
| `Sorting.SortDescPerm` | backend/fathom/routers/tasks.py:36-40 | the sort keeps every element with its multiplicity |
| `Sorting.SortDescStable` | backend/fathom/routers/tasks.py:36-40 | the sort keeps the input order of elements that rank equal, as Python's `sorted(..., reverse=True)` does |
| `Text.TruncateSpec` | backend/fathom/tools/compact.py:7-10 | a text that fits is kept; a longer one is cut to `max_len - 1` characters followed by `…`, so the result never exceeds the limit |
| `Text.StripEnds` | backend/fathom/tools/compact.py:20-22 | a stripped text is empty or starts and ends with a character that is not white space |
| `Text.SortSpec` | backend/fathom/tools/compact.py:63 | `sorted` on texts gives a sorted permutation of them |
| `Text.JoinSplit` | backend/fathom/routers/tasks.py:71-72 | joining the parts of `split` by the separator gives back the text |
| `Text.DigitsOfNatToString` | backend/fathom/tools/tasks_compact.py:87 | the decimal text of a count reads back as that count |
| `Text.PiecesOfLines` | backend/fathom/storage/azure_storage.py:94 | lines free of breaks joined by `\n` and ended by `\n` cut back into those lines and an empty piece |

## Left out

- HTTP and SDK calls are not modelled. This covers the aiohttp posts to the model endpoint, the LUSID and Honeycomb services, and the Azure Blob and Table clients. Each is a parameter, a `Result` passed in, or an in-memory map or row sequence.
- The Key Vault client and the Azure credential in `load_azure_openai_config` are the parameter `vault`; a lookup that raises is the result `None`.
- `list_agents`, `list_teams` and `playground_status` in `backend/fathom/routers/playground.py` return constant descriptions; they are not modelled.
- Run durations (`duration_ms`) and the time between events are not modelled; the clock is the parameter `now`.
- UUIDs, the epoch clock and the `yyyymmdd` day key are parameters of the members that use them.
- `json.loads` and `json.dumps` are function parameters; JSON text itself is not parsed. `JSON.parse` in the UI is not modelled: values arrive already parsed.
- Floating-point values are not part of the `Json` datatype, so `str()` of a float and the float branch of `isinstance(v, (int, float, str))` are not modelled.
- Python's `repr()` of containers is modelled without escape sequences.
- Text is a sequence of Unicode characters; UTF-8 encoding and decoding are modelled only as a chunk that decodes or does not.
- `StreamDecoder.ChunkBoundaryInvariance`: holds only for cuts at character boundaries. `iter_chunked(1024)` cuts bytes, and a cut inside a multi-byte UTF-8 character makes both chunks fail to decode, so both are dropped with every record they carry. The model's chunks are already decoded text (or `None`), so which byte cuts fall inside a character is not modelled; `StreamDecoder.SplitCharacterLosesRecord` shows the loss.
- Lower-casing (`str.lower`, `toLowerCase`) is modelled for ASCII letters only.
- `int()` of a string is modelled for ASCII decimal digits with an optional sign and surrounding white space; underscores and non-ASCII digits are not.
- `SqlTool.KeyUnionSpec`: states only which column names pattern 3 collects and that they are distinct, not their order, because the order of a Python set is an implementation detail.
- Column names that are not strings are keyed by their JSON text, which approximates Python's hashing of `None`, numbers and booleans.
- A negative `sample_limit` is not modelled: the registry always passes 10 and the sample size is a `nat`. `list_sessions`' negative `limit` is modelled (`TranscriptStore.PrefixTo`).
- Concurrency is not modelled: the async generators become finite sequences, and the race between two `append_messages` calls, where the first upload's failure is read as "the blob exists", is left out.
- The injection of quotes through the session id or agent id into the OData filter texts is not modelled; each query is modelled as the filter it is meant to be.
- `TranscriptStore.AzureStorage.TouchSession`: the model touches the first row the query returns; exceptions raised by the table, which `touch_session` and `session_exists` swallow, are not modelled.
- `TranscriptStore.AzureStorage.EnsureSession`: the fallback from `create_entity` to a merge `update_entity` is not modelled, because no row carries the id on that branch, so the insert cannot collide in this model.
- Row order in the table model stands for the order in which the table query returns entities.
- The router's date and state filters are parsed but not applied by `filter_tasks_locally`; the model states that they are ignored (`TaskRouter.DatesAndStatesIgnored`).
- `new Date(...)` and the local time zone are function parameters that map a date text to an instant or to a calendar day. An unparsable date is whatever those parameters return; JavaScript's `NaN`, which makes a comparison fail both ways, is not modelled.
- The store setters outside the task state (messages, agents, teams, model, mode, sessions, panel visibility, hydration) are not modelled; their fields have no bearing on the task actions.
- `Object.entries` lists integer-like keys first, in numeric order. The model lists chip buckets in order of first appearance, which matches only for keys that are not integer-like, such as the UUIDs of task ids.
- Field values are texts. A numeric field value, and the falsy number `0` that `&&` would hide, are not modelled.
- The fallback `'Task attached'` in `MessageItem.tsx` is unreachable once a display name is a text, so it has no member.
- `substring(0, 60)` counts UTF-16 code units; the model counts characters.
- Rendering is not modelled: layout, icons beyond their colour, popovers, tooltips, the footer's wording, and `format(date, 'MMM d')`.
- The mock tasks keep only the fields the panels read (`PortfolioCode`, `Name`, `Ticker`, `Error`), and their error texts are shortened; `mockTaskListResponse`'s link data is not modelled.
- `build_tool_cheat_sheet`, the backend calls of `run_catalog_get_fields` and `run_sql_execute`, and `honeycomb_client.py` are not part of this model.

## Findings

| source | as written | input that shows it | evidently intended | confidence | as-written member | corrected member |
|---|---|---|---|---|---|---|
| backend/fathom/storage/azure_storage.py:79-87 | `load_transcript` cuts the blob with `str.splitlines()`, which also breaks at `\r`, U+0085, U+2028, U+2029 and other separators; `json.dumps(..., ensure_ascii=False)` in `append_messages` leaves those characters unescaped in a line | a message whose text holds U+2028, such as the JSON string `"` U+2028 `"`: it is written as one line, read back as two halves that do not parse, and lost | read the blob as the `\n`-separated lines `append_messages` writes, so that every appended message loads back | not executed | `TranscriptStore.StoredTranscript` (used by `TranscriptStore.AzureStorage.LoadTranscript`), shown by `TranscriptStore.StoredLosesMessage` and `TranscriptStore.SplitLinesLosesMessage` | `TranscriptStore.StoredJsonLines`, proved by `TranscriptStore.AppendThenLoadJsonLines` and `TranscriptStore.JsonLinesRoundTrip` |
