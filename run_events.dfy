/**
  The playground run stream: for one user message the backend emits
  `RunStarted`, then one `RunResponseContent` per streamed token carrying the
  whole text accumulated so far, an optional one-shot non-streaming fallback
  when nothing was streamed, and finally `RunCompleted` or `RunError`.

  The model chunks the chat stream yielded are a finite sequence, followed
  by the exception the stream raised, if any. Identifiers, the clock and the
  fallback call's outcome are parameters: `now(k)` is the epoch second read
  when the `k`-th event is built, and `describe` is the text of an exception
  raised by a Python built-in.
*/
module RunEvents {
  import opened Wrappers
  import opened Json
  import ChatRequest

  const ModelAlias := "gpt-4o-azure"

  datatype Event =
    | RunStarted(runId: string, sessionId: string, model: string, createdAt: int)
    | RunResponseContent(content: Json, model: string, createdAt: int)
    | RunError(content: Json, model: string, createdAt: int)
    | RunCompleted(content: Json, model: string, createdAt: int)
  {
    predicate Terminal() {
      RunError? || RunCompleted?
    }

    function ContentType(): string
      requires !RunStarted?
    {
      if RunError? then "text/plain" else "text/markdown"
    }
  }

  /**
    The token a stream chunk contributes: `choices[0].delta.content` when it is a
    non-empty string. A chunk without choices, with a falsy delta or with absent
    or empty content contributes nothing; so does a chunk of the wrong shape,
    whose exception the loop catches and skips (a truthy non-string content
    fails at `accumulated += token`).
  */
  function TokenOf(chunk: Json): (t: Option<string>)
    ensures t.Some? ==> t.value != ""
  {
    if !chunk.JObj? then None
    else
      var choices := Get(chunk.fields, "choices", JArr([]));
      if !Truthy(choices) then None
      else match First(choices)
        case Failure(_) => None
        case Success(c0) =>
          if !c0.JObj? then None
          else
            var delta := Or(Get(c0.fields, "delta", JNull), JObj([]));
            if !delta.JObj? then None
            else
              var token := Get(delta.fields, "content", JNull);
              if Truthy(token) && token.JStr? then Some(token.s) else None
  }

  /** A chunk with no `choices`, or with an empty list of them, yields no token. */
  lemma NoChoicesNoToken(fields: seq<(string, Json)>)
    requires Lookup(fields, "choices").None? || Lookup(fields, "choices") == Some(JArr([]))
    ensures TokenOf(JObj(fields)) == None
  {
  }

  /** A chunk whose first choice's delta holds a non-empty string yields exactly that string. */
  lemma ContentToken(fields: seq<(string, Json)>, choices: seq<Json>, delta: seq<(string, Json)>, s: string)
    requires Lookup(fields, "choices") == Some(JArr(choices)) && choices != []
    requires choices[0].JObj? && Lookup(choices[0].fields, "delta") == Some(JObj(delta))
    requires Lookup(delta, "content") == Some(JStr(s)) && s != ""
    ensures TokenOf(JObj(fields)) == Some(s)
  {
  }

  /** The text accumulated from the tokens of `chunks`. */
  function Accumulated(chunks: seq<Json>): string {
    if chunks == [] then ""
    else
      var last := chunks[|chunks| - 1];
      Accumulated(chunks[..|chunks| - 1]) + TokenOf(last).GetOr("")
  }

  /** The contents of the streamed `RunResponseContent` events: the accumulated text after each token. */
  function Contents(chunks: seq<Json>): seq<string> {
    if chunks == [] then []
    else
      var prefix := chunks[..|chunks| - 1];
      match TokenOf(chunks[|chunks| - 1])
      case Some(t) => Contents(prefix) + [Accumulated(prefix) + t]
      case None => Contents(prefix)
  }

  /**
    The events up to the end of the stream: `start`, then one content event per
    entry of `contents`, the `k`-th of them at position `k + 1` of the run.
  */
  function Opening(start: Event, contents: seq<string>, now: nat -> int): (r: seq<Event>)
    ensures |r| == |contents| + 1
  {
    if contents == [] then [start]
    else
      var n := |contents|;
      Opening(start, contents[..n - 1], now) + [RunResponseContent(JStr(contents[n - 1]), ModelAlias, now(n))]
  }

  /** The run opens with `start`. */
  lemma {:induction false} OpeningFirst(start: Event, contents: seq<string>, now: nat -> int)
    ensures Opening(start, contents, now)[0] == start
  {
    if contents != [] {
      OpeningFirst(start, contents[..|contents| - 1], now);
    }
  }

  /** The event at position `k + 1` carries the `k`-th content. */
  lemma {:induction false} OpeningAt(start: Event, contents: seq<string>, now: nat -> int, k: nat)
    requires k < |contents|
    ensures Opening(start, contents, now)[k + 1] == RunResponseContent(JStr(contents[k]), ModelAlias, now(k + 1))
  {
    var n := |contents|;
    if k < n - 1 {
      OpeningAt(start, contents[..n - 1], now, k);
    }
  }

  /**
    The text of the fallback answer, `(resp.get("choices") or [{}])[0].get("message", {}).get("content", "")`,
    or the exception that expression raises on a response of the wrong shape.
  */
  function FallbackText(resp: Json): (r: Result<Json, Fault>)
    ensures !resp.JObj? ==> r == Failure(AttributeError)
  {
    if !resp.JObj? then Failure(AttributeError)
    else
      match First(Or(Get(resp.fields, "choices", JNull), JArr([JObj([])])))
      case Failure(f) => Failure(f)
      case Success(c0) =>
        if !c0.JObj? then Failure(AttributeError)
        else
          var message := Get(c0.fields, "message", JObj([]));
          if !message.JObj? then Failure(AttributeError)
          else Success(Get(message.fields, "content", JStr("")))
  }

  /** The inputs of one run that the environment decides. */
  datatype RunInputs = RunInputs(
    runId: string,
    sessionId: string,
    chunks: seq<Json>,
    streamFailure: Option<string>,
    fallback: Result<Json, string>)

  /** What the run emits, and the exception that escapes before the first event, if any. */
  datatype RunOutput = RunOutput(events: seq<Event>, raised: Option<string>)

  /** The fallback's text: the call's own failure, or the exception extracting the text raised. */
  function FallbackOutcome(fallback: Result<Json, string>, describe: Fault -> string): (r: Result<Json, string>)
    ensures fallback.Failure? ==> r == fallback
  {
    match fallback
    case Failure(e) => Failure(e)
    case Success(resp) =>
      match FallbackText(resp)
      case Failure(f) => Failure(describe(f))
      case Success(t) => Success(t)
  }

  /**
    The events after the streamed ones, given the events so far, the streamed
    text, how the stream ended and what the fallback would return.
  */
  function Conclude(streamed: seq<Event>, acc: string, streamFailure: Option<string>, fallback: Result<Json, string>, now: nat -> int): seq<Event> {
    var n := |streamed|;
    if streamFailure.Some? then
      streamed + [RunError(JStr(streamFailure.value), ModelAlias, now(n))]
    else if acc != "" then
      streamed + [RunCompleted(JStr(acc), ModelAlias, now(n))]
    else match fallback
      case Failure(e) => streamed + [RunError(JStr(e), ModelAlias, now(n))]
      case Success(t) =>
        if Truthy(t) then
          streamed + [RunResponseContent(t, ModelAlias, now(n)), RunCompleted(t, ModelAlias, now(n + 1))]
        else
          streamed + [RunCompleted(JStr(""), ModelAlias, now(n))]
  }

  /** The events of a run, as a whole. */
  function Run(config: Result<ChatRequest.Config, string>, inp: RunInputs, describe: Fault -> string, now: nat -> int): (r: RunOutput)
    ensures config.Failure? <==> r.raised.Some?
    ensures config.Failure? ==> r == RunOutput([], Some(config.error))
    ensures config.Success? ==> |r.events| >= 2
  {
    if config.Failure? then RunOutput([], Some(config.error))
    else
      var start := RunStarted(inp.runId, inp.sessionId, ModelAlias, now(0));
      var streamed := Opening(start, Contents(inp.chunks), now);
      var fallback := FallbackOutcome(inp.fallback, describe);
      RunOutput(Conclude(streamed, Accumulated(inp.chunks), inp.streamFailure, fallback, now), None)
  }

  lemma ContentsSnoc(chunks: seq<Json>, x: Json)
    ensures Contents(chunks + [x]) == match TokenOf(x)
      case Some(t) => Contents(chunks) + [Accumulated(chunks) + t]
      case None => Contents(chunks)
  {
    assert (chunks + [x])[..|chunks|] == chunks;
  }

  lemma AccumulatedSnoc(chunks: seq<Json>, x: Json)
    ensures Accumulated(chunks + [x]) == Accumulated(chunks) + TokenOf(x).GetOr("")
  {
    assert (chunks + [x])[..|chunks|] == chunks;
  }

  lemma TokensStep(chunks: seq<Json>, i: nat, token: Option<string>)
    requires i < |chunks| && token == TokenOf(chunks[i])
    ensures Accumulated(chunks[..i + 1]) == Accumulated(chunks[..i]) + token.GetOr("")
    ensures Contents(chunks[..i + 1]) == if token.Some? then Contents(chunks[..i]) + [Accumulated(chunks[..i]) + token.value] else Contents(chunks[..i])
  {
    assert chunks[..i + 1] == chunks[..i] + [chunks[i]];
    ContentsSnoc(chunks[..i], chunks[i]);
    AccumulatedSnoc(chunks[..i], chunks[i]);
  }

  lemma OpeningSnoc(start: Event, contents: seq<string>, c: string, now: nat -> int)
    ensures Opening(start, contents + [c], now)
         == Opening(start, contents, now) + [RunResponseContent(JStr(c), ModelAlias, now(|contents| + 1))]
  {
    assert (contents + [c])[..|contents|] == contents;
  }

  /** Every streamed content is a prefix of the final accumulated text. */
  lemma {:induction false} ContentsPrefix(chunks: seq<Json>, k: nat)
    requires k < |Contents(chunks)|
    ensures Contents(chunks)[k] <= Accumulated(chunks)
  {
    var n := |chunks|;
    var p := chunks[..n - 1];
    match TokenOf(chunks[n - 1])
    case None =>
      ContentsPrefix(p, k);
    case Some(t) =>
      if k < |Contents(p)| {
        ContentsPrefix(p, k);
      }
  }

  /** Nothing was streamed exactly when the accumulated text is empty. */
  lemma {:induction false} ContentsEmpty(chunks: seq<Json>)
    ensures Contents(chunks) == [] <==> Accumulated(chunks) == ""
  {
    if chunks != [] {
      ContentsEmpty(chunks[..|chunks| - 1]);
    }
  }

  /** The last streamed content is the whole accumulated text. */
  lemma {:induction false} ContentsLast(chunks: seq<Json>)
    requires Contents(chunks) != []
    ensures Contents(chunks)[|Contents(chunks)| - 1] == Accumulated(chunks)
  {
    var n := |chunks|;
    var p := chunks[..n - 1];
    if TokenOf(chunks[n - 1]).None? {
      ContentsLast(p);
    }
  }

  /** Each streamed content is strictly longer than every earlier one. */
  lemma {:induction false} ContentsGrow(chunks: seq<Json>, i: nat, j: nat)
    requires i < j < |Contents(chunks)|
    ensures |Contents(chunks)[i]| < |Contents(chunks)[j]|
  {
    var n := |chunks|;
    var p := chunks[..n - 1];
    match TokenOf(chunks[n - 1])
    case None =>
      ContentsGrow(p, i, j);
    case Some(t) =>
      if j < |Contents(p)| {
        ContentsGrow(p, i, j);
      } else {
        ContentsPrefix(p, i);
      }
  }

  /** Any two streamed contents form a chain: the earlier is a proper prefix of the later. */
  lemma ContentsChain(chunks: seq<Json>, i: nat, j: nat)
    requires i < j < |Contents(chunks)|
    ensures Contents(chunks)[i] < Contents(chunks)[j]
  {
    ContentsPrefix(chunks, i);
    ContentsPrefix(chunks, j);
    ContentsGrow(chunks, i, j);
  }

  /** A loaded configuration lets the run start: its first event is `RunStarted` with the given ids. */
  lemma RunStartsFirst(config: Result<ChatRequest.Config, string>, inp: RunInputs, describe: Fault -> string, now: nat -> int)
    requires config.Success?
    ensures var e := Run(config, inp, describe, now).events;
            |e| >= 2 && e[0] == RunStarted(inp.runId, inp.sessionId, ModelAlias, now(0))
  {
    OpeningFirst(RunStarted(inp.runId, inp.sessionId, ModelAlias, now(0)), Contents(inp.chunks), now);
  }

  /**
    Exactly one terminal event, the last: every earlier event is `RunStarted`
    (the first) or a `RunResponseContent`.
  */
  lemma RunOneTerminal(config: Result<ChatRequest.Config, string>, inp: RunInputs, describe: Fault -> string, now: nat -> int, k: nat)
    requires config.Success? && k < |Run(config, inp, describe, now).events|
    ensures var e := Run(config, inp, describe, now).events;
            (k == |e| - 1 <==> e[k].Terminal()) && (0 < k < |e| - 1 ==> e[k].RunResponseContent?) && (k == 0 ==> e[k].RunStarted?)
  {
    var start := RunStarted(inp.runId, inp.sessionId, ModelAlias, now(0));
    var opening := Opening(start, Contents(inp.chunks), now);
    var fallback := FallbackOutcome(inp.fallback, describe);
    var e := Conclude(opening, Accumulated(inp.chunks), inp.streamFailure, fallback, now);
    assert Run(config, inp, describe, now).events == e;
    ConcludeShape(start, Contents(inp.chunks), Accumulated(inp.chunks), inp.streamFailure, fallback, now, k);
  }

  /** `RunOneTerminal` for the events after a given opening. */
  lemma ConcludeShape(start: Event, contents: seq<string>, acc: string, streamFailure: Option<string>, fallback: Result<Json, string>,
                      now: nat -> int, k: nat)
    requires start.RunStarted? && k < |Conclude(Opening(start, contents, now), acc, streamFailure, fallback, now)|
    ensures var e := Conclude(Opening(start, contents, now), acc, streamFailure, fallback, now);
            (k == |e| - 1 <==> e[k].Terminal()) && (0 < k < |e| - 1 ==> e[k].RunResponseContent?) && (k == 0 ==> e[k].RunStarted?)
  {
    var opening := Opening(start, contents, now);
    if k == 0 {
      OpeningFirst(start, contents, now);
    } else if k <= |contents| {
      OpeningAt(start, contents, now, k - 1);
    }
  }

  /**
    The contents of any two content events form a chain: both are strings, and
    the earlier is a proper prefix of the later.
  */
  lemma RunContentChain(config: Result<ChatRequest.Config, string>, inp: RunInputs, describe: Fault -> string, now: nat -> int, i: nat, j: nat)
    requires config.Success? && 0 < i < j < |Run(config, inp, describe, now).events| - 1
    ensures var e := Run(config, inp, describe, now).events;
            e[i].RunResponseContent? && e[j].RunResponseContent? &&
            e[i].content.JStr? && e[j].content.JStr? && e[i].content.s < e[j].content.s
  {
    var start := RunStarted(inp.runId, inp.sessionId, ModelAlias, now(0));
    var contents := Contents(inp.chunks);
    ContentsEmpty(inp.chunks);
    OpeningAt(start, contents, now, i - 1);
    OpeningAt(start, contents, now, j - 1);
    ContentsChain(inp.chunks, i - 1, j - 1);
  }

  /**
    A run that completes reports the final accumulated text: the content of
    the last content event, or the empty text when there was none.
  */
  lemma RunCompletedContent(config: Result<ChatRequest.Config, string>, inp: RunInputs, describe: Fault -> string, now: nat -> int)
    requires config.Success?
    requires Run(config, inp, describe, now).events[|Run(config, inp, describe, now).events| - 1].RunCompleted?
    ensures var e := Run(config, inp, describe, now).events;
            |e| >= 2 && e[|e| - 1].content == if |e| == 2 then JStr("") else e[|e| - 2].content
  {
    var start := RunStarted(inp.runId, inp.sessionId, ModelAlias, now(0));
    var contents := Contents(inp.chunks);
    ContentsEmpty(inp.chunks);
    if contents != [] {
      ContentsLast(inp.chunks);
      OpeningAt(start, contents, now, |contents| - 1);
    }
  }

  /** A failing stream ends the run with one `RunError` carrying the exception's text, right after the streamed content. */
  lemma RunStreamFailure(config: Result<ChatRequest.Config, string>, inp: RunInputs, describe: Fault -> string, now: nat -> int)
    requires config.Success? && inp.streamFailure.Some?
    ensures var e := Run(config, inp, describe, now).events;
            |e| == |Contents(inp.chunks)| + 2 && e[|e| - 1] == RunError(JStr(inp.streamFailure.value), ModelAlias, now(|e| - 1))
  {
  }

  /** The fallback is consulted only if the stream ended normally with nothing streamed. */
  lemma FallbackOnlyWhenEmpty(config: Result<ChatRequest.Config, string>, inp: RunInputs, describe: Fault -> string, now: nat -> int,
                              other: Result<Json, string>)
    requires inp.streamFailure.Some? || Contents(inp.chunks) != []
    ensures Run(config, inp, describe, now) == Run(config, inp.(fallback := other), describe, now)
  {
    ContentsEmpty(inp.chunks);
  }

  /**
    The input check of `run_agent` and `run_team`: an empty message is refused
    with status 400, any other becomes the one user message the run sends. The
    posted `session_id`, `stream` flag and path id take no part.
  */
  function RunRequest(message: string, sessionId: Option<string>): (r: Result<seq<Json>, int>)
    ensures r.Failure? <==> message == ""
    ensures r.Failure? ==> r.error == 400
    ensures r.Success? ==> |r.value| == 1 && r.value[0].JObj?
  {
    if message == "" then Failure(400)
    else Success([JObj([("role", JStr("user")), ("content", JStr(message))])])
  }

  /** The one message sent is the user's, with the posted text as its content; the session id does not matter. */
  lemma RunRequestMessage(message: string, sessionId: Option<string>, otherSession: Option<string>)
    requires message != ""
    ensures var m := RunRequest(message, sessionId).value[0];
            Lookup(m.fields, "role") == Some(JStr("user")) && Lookup(m.fields, "content") == Some(JStr(message))
    ensures RunRequest(message, sessionId) == RunRequest(message, otherSession)
  {
    var f := [("role", JStr("user")), ("content", JStr(message))];
    assert f[1..] == [("content", JStr(message))];
  }

  /** The `async for` loop over the stream: one content event per token, stamped in event order. */
  method StreamTokens(chunks: seq<Json>, start: Event, now: nat -> int) returns (events: seq<Event>, accumulated: string)
    ensures events == Opening(start, Contents(chunks), now)
    ensures accumulated == Accumulated(chunks)
  {
    events := [start];
    accumulated := "";
    var i := 0;
    while i < |chunks|
      invariant 0 <= i <= |chunks|
      invariant accumulated == Accumulated(chunks[..i])
      invariant events == Opening(start, Contents(chunks[..i]), now)
    {
      var token := TokenOf(chunks[i]);
      TokensStep(chunks, i, token);
      if token.Some? {
        OpeningSnoc(start, Contents(chunks[..i]), accumulated + token.value, now);
        accumulated := accumulated + token.value;
        events := events + [RunResponseContent(JStr(accumulated), ModelAlias, now(|events|))];
      }
      i := i + 1;
    }
    assert chunks[..i] == chunks;
  }

  /** The fallback call and the closing event, after the stream has ended. */
  method Finish(streamed: seq<Event>, accumulated: string, streamFailure: Option<string>, fallback: Result<Json, string>,
                describe: Fault -> string, now: nat -> int)
    returns (events: seq<Event>)
    ensures events == Conclude(streamed, accumulated, streamFailure, FallbackOutcome(fallback, describe), now)
  {
    events := streamed;
    if streamFailure.Some? {
      events := events + [RunError(JStr(streamFailure.value), ModelAlias, now(|events|))];
      return;
    }
    var content := JStr(accumulated);
    if accumulated == "" {
      var text: Result<Json, string>;
      match fallback {
        case Failure(e) =>
          text := Failure(e);
        case Success(resp) =>
          match FallbackText(resp) {
            case Failure(f) => text := Failure(describe(f));
            case Success(t) => text := Success(t);
          }
      }
      if text.Failure? {
        events := events + [RunError(JStr(text.error), ModelAlias, now(|events|))];
        return;
      }
      if Truthy(text.value) {
        content := text.value;
        events := events + [RunResponseContent(content, ModelAlias, now(|events|))];
      }
    }
    events := events + [RunCompleted(content, ModelAlias, now(|events|))];
  }

  /**
    The `_stream_run_from_azure` generator, run to completion. `config` is the
    outcome of loading the configuration, which happens before any event.
  */
  method StreamRun(config: Result<ChatRequest.Config, string>, inp: RunInputs, describe: Fault -> string, now: nat -> int)
    returns (events: seq<Event>, raised: Option<string>)
    ensures RunOutput(events, raised) == Run(config, inp, describe, now)
  {
    if config.Failure? {
      return [], Some(config.error);
    }
    var streamed, accumulated := StreamTokens(inp.chunks, RunStarted(inp.runId, inp.sessionId, ModelAlias, now(0)), now);
    events := Finish(streamed, accumulated, inp.streamFailure, inp.fallback, describe, now);
    raised := None;
  }
}
