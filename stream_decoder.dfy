/**
  The event-stream line decoder of `AzureOpenAIClient.stream_chat`.

  The response body arrives as chunks of bytes. Each chunk is decoded as
  UTF-8 (a chunk that fails to decode is dropped whole, modelled as `None`)
  and appended to a text buffer; every complete newline-terminated line is
  cut from the buffer, stripped, and kept only when it starts with "data: ".
  The rest of the line is the payload: "[DONE]" ends the stream, anything else
  is handed to `json.loads` (the parameter `parse`, which returns `None` where
  Python raises) and yielded when it parses. This is a reduced form of the
  event-stream format of section 9.2 of the WHATWG HTML Living Standard: only
  single `data: ` lines are honoured and "[DONE]" is a sentinel of the model
  endpoint, not of the standard.
*/
module StreamDecoder {
  import opened Wrappers
  import opened Json
  import Text

  const DataPrefix: string := "data: "
  const DoneSentinel: string := "[DONE]"

  /** The complete newline-terminated lines of `t`, without their newline. */
  function CompleteLines(t: string): seq<string>
    decreases |t|
  {
    var k := Text.Find(t, '\n');
    if k == -1 then [] else [t[..k]] + CompleteLines(t[k + 1..])
  }

  /** What is left of `t` after its last newline: the text still waiting in the buffer. */
  function Remainder(t: string): string
    decreases |t|
  {
    var k := Text.Find(t, '\n');
    if k == -1 then t else Remainder(t[k + 1..])
  }

  /** What one complete line does to the stream. */
  datatype LineAction = Skip | Stop | Emit(record: Json)

  function Classify(raw: string, parse: string -> Option<Json>): LineAction {
    var line := Text.Strip(raw);
    if line == "" || !(DataPrefix <= line) then Skip
    else
      var payload := Text.Strip(line[|DataPrefix|..]);
      if payload == DoneSentinel then Stop
      else match parse(payload)
        case Some(j) => Emit(j)
        case None => Skip
  }

  /** The records yielded for a sequence of complete lines. */
  function DecodeLines(lines: seq<string>, parse: string -> Option<Json>): seq<Json> {
    if lines == [] then []
    else match Classify(lines[0], parse)
      case Skip => DecodeLines(lines[1..], parse)
      case Stop => []
      case Emit(j) => [j] + DecodeLines(lines[1..], parse)
  }

  /** Some line of `lines` is the end-of-stream sentinel. */
  predicate Stops(lines: seq<string>, parse: string -> Option<Json>) {
    lines != [] && (Classify(lines[0], parse) == Stop || Stops(lines[1..], parse))
  }

  /** The text of all chunks that decode, in order. */
  function DecodableText(chunks: seq<Option<string>>): string {
    if chunks == [] then ""
    else DecodableText(chunks[..|chunks| - 1]) + chunks[|chunks| - 1].GetOr("")
  }

  function DecodeText(t: string, parse: string -> Option<Json>): seq<Json> {
    DecodeLines(CompleteLines(t), parse)
  }

  /** The specification of the decoder: the records of the complete lines of the decodable text. */
  function Decode(chunks: seq<Option<string>>, parse: string -> Option<Json>): seq<Json> {
    DecodeText(DecodableText(chunks), parse)
  }

  // ---------------------------------------------------------------- lemmas

  lemma {:induction false} FindAppend(a: string, b: string, c: char)
    requires c in a
    ensures Text.Find(a + b, c) == Text.Find(a, c)
  {
    if a[0] != c {
      assert a == [a[0]] + a[1..];
      assert (a + b)[1..] == a[1..] + b;
      FindAppend(a[1..], b, c);
    }
  }

  /** One step of the buffer loop on `a + b`, when `a` already holds a newline at `k`. */
  lemma UnfoldAt(a: string, b: string, k: int)
    requires 0 <= k < |a| && k == Text.Find(a, '\n')
    ensures CompleteLines(a + b) == [a[..k]] + CompleteLines(a[k + 1..] + b)
    ensures CompleteLines(a) == [a[..k]] + CompleteLines(a[k + 1..])
    ensures Remainder(a + b) == Remainder(a[k + 1..] + b)
    ensures Remainder(a) == Remainder(a[k + 1..])
  {
    FindAppend(a, b, '\n');
    assert (a + b)[..k] == a[..k];
    assert (a + b)[k + 1..] == a[k + 1..] + b;
  }

  /** The complete lines of `a + b`: those of `a`, then those of what `a` left in the buffer followed by `b`. */
  lemma {:induction false} LinesOfAppend(a: string, b: string)
    ensures CompleteLines(a + b) == CompleteLines(a) + CompleteLines(Remainder(a) + b)
    decreases |a|
  {
    var k := Text.Find(a, '\n');
    if k != -1 {
      UnfoldAt(a, b, k);
      LinesOfAppend(a[k + 1..], b);
    }
  }

  /** The buffer after `a + b` is the buffer after `a` with `b` appended, cut at its newlines. */
  lemma {:induction false} RemainderOfAppend(a: string, b: string)
    ensures Remainder(a + b) == Remainder(Remainder(a) + b)
    decreases |a|
  {
    var k := Text.Find(a, '\n');
    if k != -1 {
      UnfoldAt(a, b, k);
      RemainderOfAppend(a[k + 1..], b);
    }
  }

  /** Records of `p + q`: those of `p`, and unless `p` reached "[DONE]", those of `q` after them. */
  lemma {:induction false} DecodeLinesAppend(p: seq<string>, q: seq<string>, parse: string -> Option<Json>)
    ensures DecodeLines(p + q, parse) ==
            if Stops(p, parse) then DecodeLines(p, parse) else DecodeLines(p, parse) + DecodeLines(q, parse)
  {
    if p == [] {
      assert p + q == q;
    } else {
      assert (p + q)[0] == p[0];
      assert (p + q)[1..] == p[1..] + q;
      DecodeLinesAppend(p[1..], q, parse);
    }
  }

  /** `p + q` reaches "[DONE]" exactly when `p` or `q` does. */
  lemma {:induction false} StopsAppend(p: seq<string>, q: seq<string>, parse: string -> Option<Json>)
    ensures Stops(p + q, parse) == (Stops(p, parse) || Stops(q, parse))
  {
    if p == [] {
      assert p + q == q;
    } else {
      assert (p + q)[0] == p[0];
      assert (p + q)[1..] == p[1..] + q;
      StopsAppend(p[1..], q, parse);
    }
  }

  lemma {:induction false} DecodableTextAppend(a: seq<Option<string>>, b: seq<Option<string>>)
    ensures DecodableText(a + b) == DecodableText(a) + DecodableText(b)
    decreases |b|
  {
    if b != [] {
      assert (a + b)[..|a + b| - 1] == a + b[..|b| - 1];
      DecodableTextAppend(a, b[..|b| - 1]);
    } else {
      assert a + b == a;
    }
  }

  /**
    Chunk-boundary invariance of the specification: decoding `x + y` is
    decoding `x`, then (unless `x` already ended the stream) decoding what
    `x` left in the buffer followed by `y`.
  */
  lemma SplitDecoding(x: string, y: string, parse: string -> Option<Json>)
    ensures DecodeText(x + y, parse) ==
            if Stops(CompleteLines(x), parse) then DecodeText(x, parse)
            else DecodeText(x, parse) + DecodeText(Remainder(x) + y, parse)
  {
    LinesOfAppend(x, y);
    DecodeLinesAppend(CompleteLines(x), CompleteLines(Remainder(x) + y), parse);
  }

  /** The decodable text of a one-chunk sequence. */
  lemma DecodableTextSingle(c: Option<string>)
    ensures DecodableText([c]) == c.GetOr("")
  {
    assert [c][..0] == [];
  }

  /** The decodable text around one chunk. */
  lemma DecodableTextMiddle(p: seq<Option<string>>, c: Option<string>, q: seq<Option<string>>)
    ensures DecodableText(p + [c] + q) == DecodableText(p) + c.GetOr("") + DecodableText(q)
  {
    DecodableTextAppend(p + [c], q);
    DecodableTextAppend(p, [c]);
    DecodableTextSingle(c);
  }

  /** Cutting one chunk of text in two anywhere leaves the decodable text as it was. */
  lemma DecodableTextSplitChunk(p: seq<Option<string>>, x: string, y: string, q: seq<Option<string>>)
    ensures DecodableText(p + [Some(x + y)] + q) == DecodableText(p + [Some(x), Some(y)] + q)
  {
    DecodableTextMiddle(p, Some(x + y), q);
    PairSeq(p, Some(x), Some(y), q);
    DecodableTextMiddle(p + [Some(x)], Some(y), q);
    DecodableTextAppend(p, [Some(x)]);
    DecodableTextSingle(Some(x));
  }

  /**
    Cutting one chunk of text in two at any character boundary yields the same
    records. A cut inside a multi-byte character is `SplitCharacterLosesRecord`.
  */
  lemma ChunkBoundaryInvariance(p: seq<Option<string>>, x: string, y: string, q: seq<Option<string>>,
                                parse: string -> Option<Json>)
    ensures Decode(p + [Some(x + y)] + q, parse) == Decode(p + [Some(x), Some(y)] + q, parse)
  {
    DecodableTextSplitChunk(p, x, y, q);
  }

  /**
    A record line sent as one chunk is yielded; when the 1024-byte cut falls
    inside one of its multi-byte characters, neither half decodes, both are
    dropped, and the record is lost.
  */
  lemma SplitCharacterLosesRecord(line: string, j: Json, parse: string -> Option<Json>)
    requires '\n' !in line && Classify(line, parse) == Emit(j)
    ensures Decode([Some(line + "\n")], parse) == [j]
    ensures Decode([None, None], parse) == []
  {
    DecodableTextSingle(Some(line + "\n"));
    OneCompleteLine(line);
    assert DecodeLines([line], parse) == [j] by {
      assert [line][1..] == [];
    }
    var none: seq<Option<string>> := [None, None];
    assert DecodableText(none) == "" by {
      assert none[..1][..0] == [];
    }
  }

  /** A text of one newline-terminated line has that line as its only complete line. */
  lemma OneCompleteLine(line: string)
    requires '\n' !in line
    ensures CompleteLines(line + "\n") == [line]
  {
    var t := line + "\n";
    FindAfter(line, '\n');
    assert t[..|line|] == line;
    assert t[|line| + 1..] == [];
  }

  /** The first `c` of `s + [c]` is at `|s|` when `s` holds none. */
  lemma {:induction false} FindAfter(s: string, c: char)
    requires c !in s
    ensures Text.Find(s + [c], c) == |s|
  {
    if s != [] {
      assert (s + [c])[1..] == s[1..] + [c];
      FindAfter(s[1..], c);
    }
  }

  /** A chunk that fails UTF-8 decoding contributes no text. */
  lemma DecodableTextDropsNone(p: seq<Option<string>>, q: seq<Option<string>>)
    ensures DecodableText(p + [None] + q) == DecodableText(p + q)
  {
    DecodableTextMiddle(p, None, q);
    DecodableTextAppend(p, q);
  }

  /** A chunk that fails UTF-8 decoding contributes nothing. */
  lemma UndecodableChunkDropped(p: seq<Option<string>>, q: seq<Option<string>>, parse: string -> Option<Json>)
    ensures Decode(p + [None] + q, parse) == Decode(p + q, parse)
  {
    DecodableTextDropsNone(p, q);
  }

  /** A line classified `Skip` can be removed without changing the records. */
  lemma SkippedLineInvisible(p: seq<string>, l: string, q: seq<string>, parse: string -> Option<Json>)
    requires Classify(l, parse) == Skip
    ensures DecodeLines(p + [l] + q, parse) == DecodeLines(p + q, parse)
  {
    assert p + [l] + q == p + ([l] + q);
    DecodeLinesAppend(p, [l] + q, parse);
    DecodeLinesAppend(p, q, parse);
    assert ([l] + q)[0] == l;
    assert ([l] + q)[1..] == q;
    assert DecodeLines([l] + q, parse) == DecodeLines(q, parse);
  }

  /** A blank line, or one that after stripping does not start with "data: ", changes nothing. */
  lemma NonDataLineYieldsNothing(p: seq<string>, l: string, q: seq<string>, parse: string -> Option<Json>)
    requires Text.Strip(l) == "" || !(DataPrefix <= Text.Strip(l))
    ensures DecodeLines(p + [l] + q, parse) == DecodeLines(p + q, parse)
  {
    SkippedLineInvisible(p, l, q, parse);
  }

  /** A data line whose payload does not parse is skipped and decoding goes on with the next line. */
  lemma MalformedPayloadSkipped(p: seq<string>, l: string, q: seq<string>, parse: string -> Option<Json>)
    requires DataPrefix <= Text.Strip(l)
    requires Text.Strip(Text.Strip(l)[|DataPrefix|..]) != DoneSentinel
    requires parse(Text.Strip(Text.Strip(l)[|DataPrefix|..])) == None
    ensures DecodeLines(p + [l] + q, parse) == DecodeLines(p + q, parse)
  {
    SkippedLineInvisible(p, l, q, parse);
  }

  /** "[DONE]" ends the stream: nothing after it is yielded. */
  lemma DoneEndsStream(p: seq<string>, l: string, q: seq<string>, parse: string -> Option<Json>)
    requires DataPrefix <= Text.Strip(l)
    requires Text.Strip(Text.Strip(l)[|DataPrefix|..]) == DoneSentinel
    ensures DecodeLines(p + [l] + q, parse) == DecodeLines(p, parse)
  {
    assert Classify(l, parse) == Stop;
    assert p + [l] + q == p + ([l] + q);
    DecodeLinesAppend(p, [l] + q, parse);
    StopLineFirst(l, q, parse);
    assert DecodeLines(p, parse) + [] == DecodeLines(p, parse);
  }

  lemma StopLineFirst(l: string, q: seq<string>, parse: string -> Option<Json>)
    requires Classify(l, parse) == Stop
    ensures DecodeLines([l] + q, parse) == []
  {
    assert ([l] + q)[0] == l;
  }

  /** Text after the last newline is never parsed. */
  lemma TrailingTextNeverParsed(t: string, tail: string, parse: string -> Option<Json>)
    requires '\n' !in tail
    ensures DecodeText(t + tail, parse) == DecodeText(t, parse)
  {
    LinesOfAppend(t, tail);
    RemainderHasNoNewline(t);
    var r := Remainder(t) + tail;
    assert '\n' !in r;
    Text.FindSpec(r, '\n');
    NoLine(r);
    assert CompleteLines(t) + [] == CompleteLines(t);
  }

  // ---------------------------------------------------------------- the loop

  /** Cutting the first line, ending at `nl`, off a buffer. */
  lemma CutLine(t: string, nl: int)
    requires 0 <= nl < |t| && nl == Text.Find(t, '\n')
    ensures CompleteLines(t) == [t[..nl]] + CompleteLines(t[nl + 1..])
  {
  }

  /** Cutting a line off the buffer leaves what will remain of it unchanged. */
  lemma CutLineRemainder(t: string, nl: int)
    requires 0 <= nl < |t| && nl == Text.Find(t, '\n')
    ensures Remainder(t) == Remainder(t[nl + 1..])
  {
  }

  /** What is left in the buffer holds no newline. */
  lemma {:induction false} RemainderHasNoNewline(t: string)
    ensures '\n' !in Remainder(t)
    decreases |t|
  {
    var k := Text.Find(t, '\n');
    Text.FindSpec(t, '\n');
    if k != -1 {
      RemainderHasNoNewline(t[k + 1..]);
    }
  }

  /** A buffer without a newline holds no complete line. */
  lemma NoLine(t: string)
    requires Text.Find(t, '\n') == -1
    ensures CompleteLines(t) == [] && Remainder(t) == t
  {
  }

  /** The records and the stop of a single line. */
  lemma OneLine(raw: string, parse: string -> Option<Json>)
    ensures DecodeLines([raw], parse) == if Classify(raw, parse).Emit? then [Classify(raw, parse).record] else []
    ensures Stops([raw], parse) == Classify(raw, parse).Stop?
  {
    assert [raw][1..] == [];
  }

  /** Decoding one more line after a prefix that has not stopped. */
  lemma DecodeSnoc(seen: seq<string>, raw: string, parse: string -> Option<Json>)
    requires !Stops(seen, parse)
    ensures DecodeLines(seen + [raw], parse) == DecodeLines(seen, parse) + DecodeLines([raw], parse)
    ensures Stops(seen + [raw], parse) == Stops([raw], parse)
  {
    DecodeLinesAppend(seen, [raw], parse);
    StopsAppend(seen, [raw], parse);
  }

  /** The decodable text of all chunks, cut after chunk `i`. */
  lemma DecodableTextCut(chunks: seq<Option<string>>, i: nat)
    requires i < |chunks|
    ensures DecodableText(chunks) == DecodableText(chunks[..i + 1]) + DecodableText(chunks[i + 1..])
  {
    DecodableTextAppend(chunks[..i + 1], chunks[i + 1..]);
    CutSeq(chunks, i + 1);
  }

  lemma PairSeq<T>(p: seq<T>, x: T, y: T, q: seq<T>)
    ensures p + [x, y] + q == (p + [x]) + [y] + q
  {
  }

  lemma CutSeq<T>(s: seq<T>, k: nat)
    requires k <= |s|
    ensures s[..k] + s[k..] == s
  {
  }

  /** Once the complete lines of `text` have stopped, text appended later adds nothing. */
  lemma StoppedText(text: string, rest: string, seen: seq<string>, parse: string -> Option<Json>)
    requires CompleteLines(text) == seen && Stops(seen, parse)
    ensures DecodeText(text + rest, parse) == DecodeLines(seen, parse)
  {
    LinesOfAppend(text, rest);
    DecodeLinesAppend(seen, CompleteLines(Remainder(text) + rest), parse);
  }

  /** Once the lines seen so far have stopped, the later chunks add nothing. */
  lemma StoppedDecode(chunks: seq<Option<string>>, i: nat, text: string, seen: seq<string>,
                      parse: string -> Option<Json>)
    requires i < |chunks| && text == DecodableText(chunks[..i + 1])
    requires CompleteLines(text) == seen && Stops(seen, parse)
    ensures Decode(chunks, parse) == DecodeLines(seen, parse)
  {
    DecodableTextCut(chunks, i);
    StoppedText(text, DecodableText(chunks[i + 1..]), seen, parse);
  }

  /** Decoding more lines after a prefix that has not stopped. */
  lemma DecodeMore(seen: seq<string>, more: seq<string>, parse: string -> Option<Json>)
    requires !Stops(seen, parse)
    ensures DecodeLines(seen + more, parse) == DecodeLines(seen, parse) + DecodeLines(more, parse)
    ensures Stops(seen + more, parse) == Stops(more, parse)
  {
    DecodeLinesAppend(seen, more, parse);
    StopsAppend(seen, more, parse);
  }

  /** Lines after a prefix that has stopped add nothing. */
  lemma DecodeAfterStop(all: seq<string>, done: seq<string>, more: seq<string>, parse: string -> Option<Json>)
    requires all == done + more && Stops(done, parse)
    ensures DecodeLines(all, parse) == DecodeLines(done, parse) && Stops(all, parse)
  {
    DecodeLinesAppend(done, more, parse);
    StopsAppend(done, more, parse);
  }

  /** Moving the first line of the buffer to the lines seen. */
  lemma ShiftLine(start: string, done: seq<string>, buffer: string, nl: int)
    requires 0 <= nl < |buffer| && nl == Text.Find(buffer, '\n')
    requires CompleteLines(start) == done + CompleteLines(buffer)
    ensures CompleteLines(start) == (done + [buffer[..nl]]) + CompleteLines(buffer[nl + 1..])
    ensures Remainder(buffer) == Remainder(buffer[nl + 1..])
  {
    CutLine(buffer, nl);
    CutLineRemainder(buffer, nl);
    Regroup(CompleteLines(start), done, [buffer[..nl]], CompleteLines(buffer[nl + 1..]), CompleteLines(buffer));
  }

  lemma Regroup(all: seq<string>, a: seq<string>, b: seq<string>, c: seq<string>, bc: seq<string>)
    requires all == a + bc && bc == b + c
    ensures all == (a + b) + c
  {
  }

  /** Appending a chunk to the text appends it to the buffer. */
  lemma AppendChunk(text: string, v: string, seen: seq<string>, buffer: string)
    requires CompleteLines(text) == seen && Remainder(text) == buffer
    ensures CompleteLines(text + v) == seen + CompleteLines(buffer + v)
    ensures Remainder(text + v) == Remainder(buffer + v)
  {
    LinesOfAppend(text, v);
    RemainderOfAppend(text, v);
  }

  /** The decodable text of one more chunk. */
  lemma DecodableTextSnoc(chunks: seq<Option<string>>, i: nat)
    requires i < |chunks|
    ensures DecodableText(chunks[..i + 1]) == DecodableText(chunks[..i]) + chunks[i].GetOr("")
  {
    assert chunks[..i + 1][..i] == chunks[..i];
  }

  /**
    The `while True` loop of `stream_chat` on one buffer: cuts and handles
    every complete line, returning early at "[DONE]". It yields the records of
    the buffer's complete lines, reports whether "[DONE]" was among them, and
    otherwise leaves the text after the last newline in the buffer.
  */
  method DrainLines(start: string, parse: string -> Option<Json>) returns (buffer: string, emitted: seq<Json>, stopped: bool)
    ensures emitted == DecodeLines(CompleteLines(start), parse)
    ensures stopped == Stops(CompleteLines(start), parse)
    ensures !stopped ==> buffer == Remainder(start)
  {
    buffer, emitted, stopped := start, [], false;
    ghost var done: seq<string> := [];
    while true
      invariant CompleteLines(start) == done + CompleteLines(buffer)
      invariant Remainder(start) == Remainder(buffer)
      invariant emitted == DecodeLines(done, parse) && !Stops(done, parse)
      decreases |buffer|
    {
      var nl := Text.Find(buffer, '\n');
      if nl == -1 {
        NoLine(buffer);
        assert done + [] == done;
        return;
      }
      ShiftLine(start, done, buffer, nl);
      var raw := buffer[..nl];
      buffer := buffer[nl + 1..];
      DecodeMore(done, [raw], parse);
      OneLine(raw, parse);
      done := done + [raw];
      var line := Text.Strip(raw);
      if line == "" {
        continue;
      }
      if !(DataPrefix <= line) {
        continue;
      }
      var dataPart := Text.Strip(line[|DataPrefix|..]);
      if dataPart == DoneSentinel {
        DecodeAfterStop(CompleteLines(start), done, CompleteLines(buffer), parse);
        stopped := true;
        return;
      }
      match parse(dataPart) {
        case Some(chunk) =>
          emitted := emitted + [chunk];
        case None =>
      }
    }
  }

  /** `stream_chat`'s chunk loop; yields exactly `Decode(chunks, parse)`. */
  method StreamChat(chunks: seq<Option<string>>, parse: string -> Option<Json>) returns (records: seq<Json>)
    ensures records == Decode(chunks, parse)
  {
    records := [];
    var buffer := "";
    ghost var seen: seq<string> := [];
    ghost var text := "";
    var i := 0;
    assert chunks[..0] == [];
    NoLine("");
    while i < |chunks|
      invariant 0 <= i <= |chunks|
      invariant text == DecodableText(chunks[..i])
      invariant CompleteLines(text) == seen && Remainder(text) == buffer
      invariant records == DecodeLines(seen, parse) && !Stops(seen, parse)
    {
      DecodableTextSnoc(chunks, i);
      if chunks[i].None? {
        i := i + 1;
        continue;
      }
      AppendChunk(text, chunks[i].value, seen, buffer);
      text := text + chunks[i].value;
      buffer := buffer + chunks[i].value;
      ghost var lines := CompleteLines(buffer);
      var emitted, stopped;
      buffer, emitted, stopped := DrainLines(buffer, parse);
      DecodeMore(seen, lines, parse);
      records := records + emitted;
      seen := seen + lines;
      if stopped {
        StoppedDecode(chunks, i, text, seen, parse);
        return;
      }
      i := i + 1;
    }
    assert chunks[..i] == chunks;
  }
}
