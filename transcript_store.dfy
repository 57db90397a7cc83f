/**
  The session store: chat transcripts as one JSON-lines blob per session in
  the `fathom-messages` container, and a `FathomSessions` table indexing the
  sessions. The container becomes a map from blob name to text and the table
  a sequence of rows in query order; the clock, the day key and fresh session
  ids are parameters, and `json.loads` / `json.dumps` are passed in as
  functions.
*/
module TranscriptStore {
  import opened Wrappers
  import opened Json
  import Text
  import Compact
  import opened Sorting

  const TableName := "FathomSessions"
  const BlobContainer := "fathom-messages"

  /** A row of the sessions table. `messageCount` is whatever value the row holds; `JNull` stands for an absent one. */
  datatype Row = Row(
    partitionKey: string,
    rowKey: string,
    agentId: string,
    title: string,
    blobUri: string,
    createdAt: int,
    updatedAt: int,
    messageCount: Json)

  /** An entry of `list_sessions`. */
  datatype SessionSummary = SessionSummary(sessionId: string, title: string, createdAt: int)

  datatype StorageError = EntityAlreadyExists

  function BlobName(sessionId: string): string {
    sessionId + ".jsonl"
  }

  function BlobUri(containerUrl: string, sessionId: string): string {
    containerUrl + "/" + BlobName(sessionId)
  }

  /** `title or ""`. */
  function TitleOr(title: Option<string>): string {
    if title.Some? then title.value else ""
  }

  /** A new index row: no messages yet, created and updated at the same instant. */
  function NewRow(partition: string, sessionId: string, agentId: string, title: Option<string>, uri: string, now: int): Row {
    Row(partition, sessionId, agentId, TitleOr(title), uri, now, now, JInt(0))
  }

  // Transcript text

  predicate IsNewline(c: char) {
    c == '\n'
  }

  /** The message of one line: none when the stripped line is blank or does not parse. */
  function LineMessage(line: string, parse: string -> Option<Json>): seq<Json> {
    var l := Text.Strip(line);
    if l != "" && parse(l).Some? then [parse(l).value] else []
  }

  /** The messages of the lines in order, blank lines and lines that do not parse skipped. */
  function LineMessages(lines: seq<string>, parse: string -> Option<Json>): seq<Json> {
    if lines == [] then [] else LineMessage(lines[0], parse) + LineMessages(lines[1..], parse)
  }

  /** The messages of a transcript blob whose lines end at the characters satisfying `isBreak`. */
  function TranscriptOf(text: string, parse: string -> Option<Json>, isBreak: char -> bool): seq<Json> {
    LineMessages(Text.Pieces(text, isBreak), parse)
  }

  /** `text.splitlines()` as written: lines also end at "\r", U+2028 and the other Unicode line separators. */
  function SplitLinesTranscript(text: string, parse: string -> Option<Json>): seq<Json> {
    TranscriptOf(text, parse, Text.IsLineBreak)
  }

  /** Lines that end at "\n" only, the separator `append_messages` writes. */
  function JsonLinesTranscript(text: string, parse: string -> Option<Json>): seq<Json> {
    TranscriptOf(text, parse, IsNewline)
  }

  function EncodedLines(msgs: seq<Json>, dumps: Json -> string): (r: seq<string>)
    ensures |r| == |msgs|
  {
    seq(|msgs|, i requires 0 <= i < |msgs| => dumps(msgs[i]))
  }

  /** One JSON line per message, each ending in "\n". */
  function Payload(msgs: seq<Json>, dumps: Json -> string): string {
    Text.Join(EncodedLines(msgs, dumps), "\n") + "\n"
  }

  /** What a JSON serialisation gives a message: one line with no `isBreak` character and no surrounding blanks, that parses back. */
  predicate Encodes(m: Json, parse: string -> Option<Json>, dumps: Json -> string, isBreak: char -> bool) {
    && dumps(m) != ""
    && Text.NoneWhere(dumps(m), isBreak)
    && Text.Strip(dumps(m)) == dumps(m)
    && parse(dumps(m)) == Some(m)
  }

  /** A blob that later lines can be appended to: empty, or ending in a line break. */
  predicate Terminated(text: string) {
    text == [] || text[|text| - 1] == '\n'
  }

  /** An empty blob, or the empty piece after the final "\n", holds no message. */
  lemma EmptyPieceNoMessages(parse: string -> Option<Json>, isBreak: char -> bool)
    ensures LineMessages([[]], parse) == []
    ensures TranscriptOf([], parse, isBreak) == []
  {
    var e: seq<string> := [[]];
    assert e[1..] == [];
    assert LineMessage([], parse) == [];
    assert Text.Pieces([], isBreak) == [[]];
  }

  lemma {:induction false} LineMessagesAppend(a: seq<string>, b: seq<string>, parse: string -> Option<Json>)
    ensures LineMessages(a + b, parse) == LineMessages(a, parse) + LineMessages(b, parse)
  {
    if a == [] {
      assert a + b == b;
    } else {
      assert (a + b)[0] == a[0] && (a + b)[1..] == a[1..] + b;
      LineMessagesAppend(a[1..], b, parse);
    }
  }

  lemma LineMessagesSnoc(lines: seq<string>, line: string, parse: string -> Option<Json>)
    ensures LineMessages(lines + [line], parse) == LineMessages(lines, parse) + LineMessage(line, parse)
  {
    LineMessagesAppend(lines, [line], parse);
    var one: seq<string> := [line];
    assert one[1..] == [];
  }

  lemma {:induction false} LineMessagesEncoded(msgs: seq<Json>, parse: string -> Option<Json>, dumps: Json -> string, isBreak: char -> bool)
    requires forall i :: 0 <= i < |msgs| ==> Encodes(msgs[i], parse, dumps, isBreak)
    ensures LineMessages(EncodedLines(msgs, dumps), parse) == msgs
  {
    if msgs != [] {
      assert Encodes(msgs[0], parse, dumps, isBreak);
      assert LineMessage(dumps(msgs[0]), parse) == [msgs[0]];
      assert EncodedLines(msgs, dumps)[1..] == EncodedLines(msgs[1..], dumps);
      LineMessagesEncoded(msgs[1..], parse, dumps, isBreak);
    }
  }

  /** A payload on its own loads as its messages. */
  lemma PayloadMessages(msgs: seq<Json>, parse: string -> Option<Json>, dumps: Json -> string, isBreak: char -> bool)
    requires isBreak('\n')
    requires msgs != [] && forall i :: 0 <= i < |msgs| ==> Encodes(msgs[i], parse, dumps, isBreak)
    ensures Text.Pieces(Payload(msgs, dumps), isBreak) == EncodedLines(msgs, dumps) + [[]]
    ensures TranscriptOf(Payload(msgs, dumps), parse, isBreak) == msgs
  {
    var lines := EncodedLines(msgs, dumps);
    Text.PiecesOfLines(lines, isBreak);
    LineMessagesEncoded(msgs, parse, dumps, isBreak);
    LineMessagesAppend(lines, [[]], parse);
    EmptyPieceNoMessages(parse, isBreak);
  }

  /** Lines whose first part ends in the empty piece read as the two parts read separately. */
  lemma MessagesAcrossBreak(whole: seq<string>, first: seq<string>, second: seq<string>, parse: string -> Option<Json>)
    requires first != [] && first[|first| - 1] == [] && whole == first[..|first| - 1] + second
    ensures LineMessages(whole, parse) == LineMessages(first, parse) + LineMessages(second, parse)
  {
    var init := first[..|first| - 1];
    LineMessagesAppend(init, second, parse);
    assert first == init + [[]];
    LineMessagesAppend(init, [[]], parse);
    EmptyPieceNoMessages(parse, IsNewline);
  }

  /** Text appended after a line break is read on its own: the messages of both parts, in order. */
  lemma TranscriptAppend(a: string, b: string, parse: string -> Option<Json>, isBreak: char -> bool)
    requires a == [] || isBreak(a[|a| - 1])
    ensures TranscriptOf(a + b, parse, isBreak) == TranscriptOf(a, parse, isBreak) + TranscriptOf(b, parse, isBreak)
  {
    if a == [] {
      EmptyPieceNoMessages(parse, isBreak);
      assert a + b == b;
    } else {
      Text.PiecesAppend(a, b, isBreak);
      MessagesAcrossBreak(Text.Pieces(a + b, isBreak), Text.Pieces(a, isBreak), Text.Pieces(b, isBreak), parse);
    }
  }

  /**
    Appending then loading: a transcript that is empty or ends in a line
    break, followed by the payload of some messages, loads as the old
    messages followed by the new ones in order, whenever each message
    serialises to one line free of break characters.
  */
  lemma TranscriptRoundTrip(text: string, msgs: seq<Json>, parse: string -> Option<Json>, dumps: Json -> string, isBreak: char -> bool)
    requires isBreak('\n') && (text == [] || isBreak(text[|text| - 1]))
    requires msgs != [] && forall i :: 0 <= i < |msgs| ==> Encodes(msgs[i], parse, dumps, isBreak)
    ensures TranscriptOf(text + Payload(msgs, dumps), parse, isBreak) == TranscriptOf(text, parse, isBreak) + msgs
  {
    PayloadMessages(msgs, parse, dumps, isBreak);
    TranscriptAppend(text, Payload(msgs, dumps), parse, isBreak);
  }

  /** The JSON-lines reading round-trips every message, since JSON serialisation escapes "\n". */
  lemma JsonLinesRoundTrip(text: string, msgs: seq<Json>, parse: string -> Option<Json>, dumps: Json -> string)
    requires Terminated(text)
    requires msgs != [] && forall i :: 0 <= i < |msgs| ==> Encodes(msgs[i], parse, dumps, IsNewline)
    ensures JsonLinesTranscript(text + Payload(msgs, dumps), parse) == JsonLinesTranscript(text, parse) + msgs
  {
    TranscriptRoundTrip(text, msgs, parse, dumps, IsNewline);
  }

  /**
    `json.dumps(..., ensure_ascii=False)` leaves U+2028 unescaped, so a
    message whose text holds one is written as a single line that
    `splitlines` cuts in two; neither half parses, and the message is lost.
  */
  lemma SplitLinesLosesMessage(m: Json, parse: string -> Option<Json>, dumps: Json -> string)
    requires dumps(m) == "\"\U{2028}\"" && parse(dumps(m)) == Some(m) && parse("\"") == None
    ensures JsonLinesTranscript(Payload([m], dumps), parse) == [m]
    ensures SplitLinesTranscript(Payload([m], dumps), parse) == []
  {
    var line := dumps(m);
    assert EncodedLines([m], dumps) == [line];
    assert Payload([m], dumps) == line + "\n";
    JsonLinesKeeps(m, parse, dumps);
    SplitLinesDrops(line + "\n", parse);
  }

  lemma JsonLinesKeeps(m: Json, parse: string -> Option<Json>, dumps: Json -> string)
    requires dumps(m) == "\"\U{2028}\"" && parse(dumps(m)) == Some(m)
    ensures JsonLinesTranscript(Payload([m], dumps), parse) == [m]
  {
    Text.StripUnchanged(dumps(m));
    assert Encodes(m, parse, dumps, IsNewline);
    PayloadMessages([m], parse, dumps, IsNewline);
  }

  lemma SplitLinesDrops(text: string, parse: string -> Option<Json>)
    requires text == "\"\U{2028}\"\n" && parse("\"") == None
    ensures SplitLinesTranscript(text, parse) == []
  {
    SplitLinesPieces(text);
    UnparsedPieces(Text.Pieces(text, Text.IsLineBreak), "\"", parse);
  }

  lemma UnparsedPieces(ps: seq<string>, q: string, parse: string -> Option<Json>)
    requires ps == [q, q, []] && q == "\"" && parse(q) == None
    ensures LineMessages(ps, parse) == []
  {
    assert LineMessage(q, parse) == [] by {
      Text.StripUnchanged(q);
    }
    assert ps[1..] == [q, []] && ps[1..][1..] == [[]];
    EmptyPieceNoMessages(parse, Text.IsLineBreak);
  }

  /** Under `splitlines`, the line `"U+2028"` and its "\n" are the pieces `"`, `"` and the empty piece. */
  lemma SplitLinesPieces(text: string)
    requires text == "\"\U{2028}\"\n"
    ensures Text.Pieces(text, Text.IsLineBreak) == ["\"", "\"", []]
  {
    var q := "\"";
    assert Text.NoneWhere(q, Text.IsLineBreak);
    assert text == q + ['\U{2028}'] + (q + "\n");
    Text.PiecesCons(q, '\U{2028}', q + "\n", Text.IsLineBreak);
    assert q + "\n" == q + ['\n'] + [];
    Text.PiecesCons(q, '\n', [], Text.IsLineBreak);
    assert Text.Pieces([], Text.IsLineBreak) == [[]];
  }

  // The blob container

  /** The loop of `load_transcript` over the lines of a blob. */
  method ReadLines(lines: seq<string>, parse: string -> Option<Json>) returns (messages: seq<Json>)
    ensures messages == LineMessages(lines, parse)
  {
    messages := [];
    var i := 0;
    while i < |lines|
      invariant 0 <= i <= |lines|
      invariant messages + LineMessages(lines[i..], parse) == LineMessages(lines, parse)
    {
      ghost var before := messages;
      var line := Text.Strip(lines[i]);
      if line != "" {
        var m := parse(line);
        if m.Some? {
          messages := messages + [m.value];
        }
      }
      assert messages == before + LineMessage(lines[i], parse);
      ReadStep(before, messages, lines[i..], parse);
      assert lines[i..][1..] == lines[i + 1..];
      i := i + 1;
    }
  }

  /** One turn of `ReadLines`: the messages of the next line move from what is left to what was read. */
  lemma ReadStep(before: seq<Json>, after: seq<Json>, rest: seq<string>, parse: string -> Option<Json>)
    requires rest != [] && after == before + LineMessage(rest[0], parse)
    ensures after + LineMessages(rest[1..], parse) == before + LineMessages(rest, parse)
  {
    var first := LineMessage(rest[0], parse);
    var others := LineMessages(rest[1..], parse);
    assert LineMessages(rest, parse) == first + others;
    AppendAssoc(before, first, others);
  }

  lemma AppendAssoc<T>(a: seq<T>, b: seq<T>, c: seq<T>)
    ensures (a + b) + c == a + (b + c)
  {
  }

  /** What `load_transcript` returns: the messages of the session's blob cut by `splitlines`, none when there is no blob. */
  function StoredTranscript(blobs: map<string, string>, sessionId: string, parse: string -> Option<Json>): seq<Json> {
    if BlobName(sessionId) in blobs then SplitLinesTranscript(blobs[BlobName(sessionId)], parse) else []
  }

  /** The corrected `load_transcript`: the session's blob read as the "\n"-ended lines `append_messages` writes. */
  function StoredJsonLines(blobs: map<string, string>, sessionId: string, parse: string -> Option<Json>): seq<Json> {
    if BlobName(sessionId) in blobs then JsonLinesTranscript(blobs[BlobName(sessionId)], parse) else []
  }

  /** The blob text after `append_messages` of a non-empty list: the old text, or none, then the payload. */
  function Appended(blobs: map<string, string>, sessionId: string, msgs: seq<Json>, dumps: Json -> string): string {
    (if BlobName(sessionId) in blobs then blobs[BlobName(sessionId)] else "") + Payload(msgs, dumps)
  }

  /** Every non-empty append ends the blob with "\n", so the next one starts on a line of its own. */
  lemma AppendedTerminated(blobs: map<string, string>, sessionId: string, msgs: seq<Json>, dumps: Json -> string)
    ensures Terminated(Appended(blobs, sessionId, msgs, dumps))
  {
  }

  /**
    Appending then loading a session, as written: it gives back what it held
    before, followed by the appended messages in order, provided no message
    serialises to text holding a character `splitlines` breaks at.
  */
  lemma AppendThenLoad(blobs: map<string, string>, sessionId: string, msgs: seq<Json>, parse: string -> Option<Json>, dumps: Json -> string)
    requires BlobName(sessionId) in blobs ==> Terminated(blobs[BlobName(sessionId)])
    requires msgs != [] && forall i :: 0 <= i < |msgs| ==> Encodes(msgs[i], parse, dumps, Text.IsLineBreak)
    ensures StoredTranscript(blobs[BlobName(sessionId) := Appended(blobs, sessionId, msgs, dumps)], sessionId, parse)
            == StoredTranscript(blobs, sessionId, parse) + msgs
  {
    var old_text := if BlobName(sessionId) in blobs then blobs[BlobName(sessionId)] else "";
    EmptyPieceNoMessages(parse, Text.IsLineBreak);
    TranscriptRoundTrip(old_text, msgs, parse, dumps, Text.IsLineBreak);
  }

  /**
    As written, a new session whose one message serialises to `"`U+2028`"`
    loads as no messages; the corrected reading gives the message back.
  */
  lemma StoredLosesMessage(sessionId: string, m: Json, parse: string -> Option<Json>, dumps: Json -> string)
    requires dumps(m) == "\"\U{2028}\"" && parse(dumps(m)) == Some(m) && parse("\"") == None
    ensures var blobs := map[BlobName(sessionId) := Payload([m], dumps)];
            StoredTranscript(blobs, sessionId, parse) == [] && StoredJsonLines(blobs, sessionId, parse) == [m]
  {
    SplitLinesLosesMessage(m, parse, dumps);
  }

  /**
    Appending then loading a session under the corrected reading gives back
    what it held before, followed by every appended message in order:
    JSON serialisation escapes "\n", so no message is cut.
  */
  lemma AppendThenLoadJsonLines(blobs: map<string, string>, sessionId: string, msgs: seq<Json>, parse: string -> Option<Json>, dumps: Json -> string)
    requires BlobName(sessionId) in blobs ==> Terminated(blobs[BlobName(sessionId)])
    requires msgs != [] && forall i :: 0 <= i < |msgs| ==> Encodes(msgs[i], parse, dumps, IsNewline)
    ensures StoredJsonLines(blobs[BlobName(sessionId) := Appended(blobs, sessionId, msgs, dumps)], sessionId, parse)
            == StoredJsonLines(blobs, sessionId, parse) + msgs
  {
    var old_text := if BlobName(sessionId) in blobs then blobs[BlobName(sessionId)] else "";
    EmptyPieceNoMessages(parse, IsNewline);
    JsonLinesRoundTrip(old_text, msgs, parse, dumps);
  }

  // The sessions table

  /** No two rows share a `(PartitionKey, RowKey)` pair, the table's primary key. */
  ghost predicate UniqueKeys(rows: seq<Row>) {
    forall i, j :: 0 <= i < j < |rows| ==> (rows[i].partitionKey, rows[i].rowKey) != (rows[j].partitionKey, rows[j].rowKey)
  }

  /** The first row whose `RowKey` is the session id, or -1: the first result of `RowKey eq '<id>'`. */
  function RowIndex(rows: seq<Row>, sessionId: string): (k: int)
    ensures -1 <= k < |rows|
    ensures k == -1 <==> forall i :: 0 <= i < |rows| ==> rows[i].rowKey != sessionId
    ensures k >= 0 ==> rows[k].rowKey == sessionId && forall i :: 0 <= i < k ==> rows[i].rowKey != sessionId
  {
    if rows == [] then -1
    else if rows[0].rowKey == sessionId then 0
    else var k := RowIndex(rows[1..], sessionId); if k == -1 then -1 else k + 1
  }

  predicate HasKey(rows: seq<Row>, partition: string, sessionId: string) {
    exists i :: 0 <= i < |rows| && rows[i].partitionKey == partition && rows[i].rowKey == sessionId
  }

  /** `int(value)` on a stored `MessageCount`, an absent one reading as `0`. */
  function IntOf(v: Json): (r: Result<int, Fault>)
    ensures v.JInt? ==> r == Success(v.i)
    ensures v.JNull? ==> r == Success(0)
  {
    match v
    case JNull => Success(0)
    case JInt(i) => Success(i)
    case JBool(b) => Success(if b then 1 else 0)
    case JStr(t) => Compact.ParseInt(t)
    case _ => Failure(TypeError)
  }

  /** The row `touch_session` writes back: updated now, and the message count raised when asked to. */
  function TouchRow(r: Row, increment: int, now: int): Row {
    var count :=
      if increment == 0 then r.messageCount
      else if IntOf(r.messageCount).Success? then JInt(IntOf(r.messageCount).value + increment)
      else JInt(increment);
    r.(updatedAt := now, messageCount := count)
  }

  /** The table after `touch_session`: the first row of the session touched, or nothing changed when there is none. */
  function Touched(rows: seq<Row>, sessionId: string, increment: int, now: int): seq<Row> {
    var k := RowIndex(rows, sessionId);
    if k == -1 then rows else rows[k := TouchRow(rows[k], increment, now)]
  }

  /**
    Touching changes one row at most, the first of the session, and there
    only its update time and message count; the keys stay unique.
  */
  lemma TouchedSpec(rows: seq<Row>, sessionId: string, increment: int, now: int)
    requires UniqueKeys(rows)
    ensures var t := Touched(rows, sessionId, increment, now); var k := RowIndex(rows, sessionId);
            && |t| == |rows| && UniqueKeys(t)
            && (forall i :: 0 <= i < |rows| && i != k ==> t[i] == rows[i])
            && (k >= 0 ==> && t[k].updatedAt == now
                           && t[k] == rows[k].(updatedAt := now, messageCount := t[k].messageCount)
                           && (increment == 0 ==> t[k].messageCount == rows[k].messageCount)
                           && (increment != 0 && rows[k].messageCount.JInt? ==> t[k].messageCount == JInt(rows[k].messageCount.i + increment)))
  {
  }

  /** A stored count that `int()` refuses restarts at the increment. */
  lemma TouchUnreadableCount(r: Row, increment: int, now: int)
    requires increment != 0 && (r.messageCount.JArr? || r.messageCount.JObj?)
    ensures TouchRow(r, increment, now).messageCount == JInt(increment)
  {
  }

  /** The table after `delete_session`: every row of the session removed, the rest in order. */
  function RemoveRows(rows: seq<Row>, sessionId: string): seq<Row> {
    if rows == [] then []
    else RemoveRows(rows[..|rows| - 1], sessionId)
         + (if rows[|rows| - 1].rowKey == sessionId then [] else [rows[|rows| - 1]])
  }

  lemma {:induction false} RemoveRowsSpec(rows: seq<Row>, sessionId: string)
    ensures forall r :: r in RemoveRows(rows, sessionId) <==> r in rows && r.rowKey != sessionId
    ensures |RemoveRows(rows, sessionId)| <= |rows|
    ensures RowIndex(RemoveRows(rows, sessionId), sessionId) == -1
  {
    if rows != [] {
      RemoveRowsSpec(rows[..|rows| - 1], sessionId);
      assert rows == rows[..|rows| - 1] + [rows[|rows| - 1]];
    }
  }

  /** A subsequence of rows with unique keys has unique keys. */
  lemma {:induction false} RemoveRowsUnique(rows: seq<Row>, sessionId: string)
    requires UniqueKeys(rows)
    ensures UniqueKeys(RemoveRows(rows, sessionId))
  {
    if rows != [] {
      var init := rows[..|rows| - 1];
      var last := rows[|rows| - 1];
      assert UniqueKeys(init);
      RemoveRowsUnique(init, sessionId);
      RemoveRowsSpec(init, sessionId);
      var r := RemoveRows(init, sessionId);
      forall i | 0 <= i < |r| ensures (r[i].partitionKey, r[i].rowKey) != (last.partitionKey, last.rowKey) {
        assert r[i] in init;
        var j :| 0 <= j < |init| && init[j] == r[i];
        assert rows[j] == r[i];
      }
    }
  }

  /** `PartitionKey ge start and PartitionKey le end and AgentId eq agent`. */
  predicate InWindow(r: Row, agentId: string, startKey: string, endKey: string) {
    Text.StrLe(startKey, r.partitionKey) && Text.StrLe(r.partitionKey, endKey) && r.agentId == agentId
  }

  function Matching(rows: seq<Row>, agentId: string, startKey: string, endKey: string): seq<Row> {
    if rows == [] then []
    else Matching(rows[..|rows| - 1], agentId, startKey, endKey)
         + (if InWindow(rows[|rows| - 1], agentId, startKey, endKey) then [rows[|rows| - 1]] else [])
  }

  lemma {:induction false} MatchingSpec(rows: seq<Row>, agentId: string, startKey: string, endKey: string)
    ensures forall r :: r in Matching(rows, agentId, startKey, endKey) <==> r in rows && InWindow(r, agentId, startKey, endKey)
  {
    if rows != [] {
      MatchingSpec(rows[..|rows| - 1], agentId, startKey, endKey);
      assert rows == rows[..|rows| - 1] + [rows[|rows| - 1]];
    }
  }

  /** `int(e.get("UpdatedAt", 0))` as the sort key. */
  function ByUpdated(a: Row, b: Row): bool {
    a.updatedAt <= b.updatedAt
  }

  lemma ByUpdatedTotal()
    ensures TotalPreorder(ByUpdated)
  {
  }

  /** Python's `s[:limit]`: a negative limit counts back from the end. */
  function PrefixTo<T>(s: seq<T>, limit: int): (r: seq<T>)
    ensures |r| == if limit >= 0 then (if limit < |s| then limit else |s|)
                   else (if |s| + limit > 0 then |s| + limit else 0)
    ensures r == s[..|r|]
  {
    if limit >= 0 then (if limit < |s| then s[..limit] else s)
    else if |s| + limit > 0 then s[..|s| + limit] else []
  }

  /** The rows `list_sessions` reports, most recently updated first. */
  function ListedRows(rows: seq<Row>, agentId: string, startKey: string, endKey: string, limit: int): seq<Row> {
    PrefixTo(SortDesc(Matching(rows, agentId, startKey, endKey), ByUpdated), limit)
  }

  function Summary(r: Row): SessionSummary {
    SessionSummary(r.rowKey, r.title, r.createdAt)
  }

  /**
    The listed sessions are the agent's sessions in the day window, most
    recently updated first (ties in table order), at most `limit` of them,
    and all of them when the limit is not smaller than their number.
  */
  lemma ListedRowsSpec(rows: seq<Row>, agentId: string, startKey: string, endKey: string, limit: int)
    ensures var l := ListedRows(rows, agentId, startKey, endKey, limit);
            var m := Matching(rows, agentId, startKey, endKey);
            && (forall r :: r in l ==> r in rows && InWindow(r, agentId, startKey, endKey))
            && Descending(l, ByUpdated)
            && (limit >= 0 ==> |l| == if limit < |m| then limit else |m|)
            && (limit < 0 ==> |l| == if |m| + limit > 0 then |m| + limit else 0)
            && (limit >= |m| ==> multiset(l) == multiset(m))
  {
    var m := Matching(rows, agentId, startKey, endKey);
    var sorted := SortDesc(m, ByUpdated);
    MatchingSpec(rows, agentId, startKey, endKey);
    SortDescPerm(m, ByUpdated);
    ByUpdatedTotal();
    SortDescSorted(m, ByUpdated);
    var l := PrefixTo(sorted, limit);
    assert |sorted| == |m| by {
      assert |multiset(sorted)| == |multiset(m)|;
    }
    forall r | r in l ensures r in rows && InWindow(r, agentId, startKey, endKey) {
      assert r in multiset(sorted);
    }
  }

  /** Sessions updated at the same second keep the order the table returned them in. */
  lemma ListedTiesInTableOrder(rows: seq<Row>, agentId: string, startKey: string, endKey: string, e: Row)
    ensures Equivalents(SortDesc(Matching(rows, agentId, startKey, endKey), ByUpdated), e, ByUpdated)
            == Equivalents(Matching(rows, agentId, startKey, endKey), e, ByUpdated)
  {
    ByUpdatedTotal();
    SortDescStable(Matching(rows, agentId, startKey, endKey), e, ByUpdated);
  }

  /**
    The storage service: the transcript blobs by name and the sessions
    table. The clock, the day keys and `uuid4` are passed to the operations
    that use them.
  */
  class AzureStorage {
    const containerUrl: string
    var blobs: map<string, string>
    var rows: seq<Row>

    ghost predicate Valid()
      reads this
    {
      UniqueKeys(rows)
    }

    /** Connects to a container and a table holding the given blobs and rows. */
    constructor (containerUrl: string, blobs: map<string, string>, rows: seq<Row>)
      requires UniqueKeys(rows)
      ensures Valid()
      ensures this.containerUrl == containerUrl && this.blobs == blobs && this.rows == rows
    {
      this.containerUrl := containerUrl;
      this.blobs := blobs;
      this.rows := rows;
    }

    /** `load_transcript`: the blob cut by `splitlines`, a missing blob read as an empty transcript. */
    method LoadTranscript(sessionId: string, parse: string -> Option<Json>) returns (messages: seq<Json>)
      ensures messages == StoredTranscript(blobs, sessionId, parse)
    {
      var name := BlobName(sessionId);
      if name !in blobs {
        return [];
      }
      messages := ReadLines(Text.Pieces(blobs[name], Text.IsLineBreak), parse);
    }

    /** `append_messages`: nothing for an empty list, otherwise the payload added after whatever the blob held. */
    method AppendMessages(sessionId: string, newMessages: seq<Json>, dumps: Json -> string)
      modifies this
      ensures rows == old(rows)
      ensures newMessages == [] ==> blobs == old(blobs)
      ensures newMessages != [] ==> blobs == old(blobs)[BlobName(sessionId) := Appended(old(blobs), sessionId, newMessages, dumps)]
    {
      if newMessages == [] {
        return;
      }
      var name := BlobName(sessionId);
      var payload := Payload(newMessages, dumps);
      if name !in blobs {
        assert "" + payload == payload;
        blobs := blobs[name := payload];
      } else {
        blobs := blobs[name := blobs[name] + payload];
      }
    }

    /** `session_exists`: some row carries the session id. */
    predicate SessionExists(sessionId: string)
      reads this
    {
      RowIndex(rows, sessionId) >= 0
    }

    /** The entity `create_session` and `ensure_session` write for a session. */
    function EntityFor(partition: string, sessionId: string, agentId: string, title: Option<string>, createdAt: int, updatedAt: int): Row
      reads this
    {
      Row(partition, sessionId, agentId, TitleOr(title), BlobUri(containerUrl, sessionId), createdAt, updatedAt, JInt(0))
    }

    /**
      `create_session` with `newId` as the generated id: a row for today with
      no messages, refused when today already holds that id.
    */
    method CreateSession(agentId: string, title: Option<string>, newId: string, partition: string, now: int)
      returns (r: Result<(string, string), StorageError>)
      requires Valid()
      modifies this
      ensures Valid() && blobs == old(blobs)
      ensures HasKey(old(rows), partition, newId) ==> r == Failure(EntityAlreadyExists) && rows == old(rows)
      ensures !HasKey(old(rows), partition, newId) ==>
                && r == Success((newId, BlobUri(containerUrl, newId)))
                && rows == old(rows) + [EntityFor(partition, newId, agentId, title, now, now)]
    {
      if HasKey(rows, partition, newId) {
        return Failure(EntityAlreadyExists);
      }
      var entity := EntityFor(partition, newId, agentId, title, now, now);
      rows := rows + [entity];
      return Success((newId, entity.blobUri));
    }

    /** `touch_session`. */
    method TouchSession(sessionId: string, incrementMessagesBy: int, now: int)
      requires Valid()
      modifies this
      ensures Valid() && blobs == old(blobs)
      ensures rows == Touched(old(rows), sessionId, incrementMessagesBy, now)
    {
      TouchedSpec(rows, sessionId, incrementMessagesBy, now);
      var k := RowIndex(rows, sessionId);
      if k == -1 {
        return;
      }
      rows := rows[k := TouchRow(rows[k], incrementMessagesBy, now)];
    }

    /**
      `ensure_session`: an existing session is reused; a named session that
      does not exist gets a row under that same id; without an id (or with
      an empty one) a new session is created. The flag says whether a row was written.
    */
    method EnsureSession(agentId: string, sessionId: Option<string>, title: Option<string>,
                         newId: string, partition: string, createdAt: int, updatedAt: int)
      returns (r: Result<(string, string, bool), StorageError>)
      requires Valid()
      modifies this
      ensures Valid() && blobs == old(blobs)
      ensures sessionId.Some? && sessionId.value != "" && RowIndex(old(rows), sessionId.value) >= 0 ==>
                r == Success((sessionId.value, BlobUri(containerUrl, sessionId.value), false)) && rows == old(rows)
      ensures sessionId.Some? && sessionId.value != "" && RowIndex(old(rows), sessionId.value) == -1 ==>
                && r == Success((sessionId.value, BlobUri(containerUrl, sessionId.value), true))
                && rows == old(rows) + [EntityFor(partition, sessionId.value, agentId, title, createdAt, updatedAt)]
      ensures (sessionId.None? || sessionId.value == "") ==>
                if HasKey(old(rows), partition, newId) then r == Failure(EntityAlreadyExists) && rows == old(rows)
                else r == Success((newId, BlobUri(containerUrl, newId), true))
                     && rows == old(rows) + [EntityFor(partition, newId, agentId, title, createdAt, createdAt)]
    {
      if sessionId.Some? && sessionId.value != "" {
        var id := sessionId.value;
        if SessionExists(id) {
          return Success((id, BlobUri(containerUrl, id), false));
        }
        // No row carries the id, so the insert cannot collide.
        var entity := EntityFor(partition, id, agentId, title, createdAt, updatedAt);
        rows := rows + [entity];
        return Success((id, entity.blobUri, true));
      }
      var created := CreateSession(agentId, title, newId, partition, createdAt);
      if created.Failure? {
        return Failure(created.error);
      }
      return Success((created.value.0, created.value.1, true));
    }

    /** `list_sessions` over the day window from `startKey` to `endKey`. */
    method ListSessions(agentId: string, startKey: string, endKey: string, limit: int) returns (out: seq<SessionSummary>)
      ensures |out| == |ListedRows(rows, agentId, startKey, endKey, limit)|
      ensures forall i :: 0 <= i < |out| ==> out[i] == Summary(ListedRows(rows, agentId, startKey, endKey, limit)[i])
    {
      var entities := SortDesc(Matching(rows, agentId, startKey, endKey), ByUpdated);
      var page := PrefixTo(entities, limit);
      out := [];
      var i := 0;
      while i < |page|
        invariant 0 <= i <= |page|
        invariant |out| == i && forall j :: 0 <= j < i ==> out[j] == Summary(page[j])
      {
        out := out + [Summary(page[i])];
        i := i + 1;
      }
    }

    /** `delete_session`: every row of the session and its blob removed. */
    method DeleteSession(sessionId: string)
      requires Valid()
      modifies this
      ensures Valid()
      ensures rows == RemoveRows(old(rows), sessionId)
      ensures blobs == old(blobs) - {BlobName(sessionId)}
    {
      RemoveRowsUnique(rows, sessionId);
      rows := RemoveRows(rows, sessionId);
      blobs := blobs - {BlobName(sessionId)};
    }
  }
}
