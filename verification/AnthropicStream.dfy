/**
 * The Anthropic streaming reader: the same line buffer, with typed events, a
 * `message_stop` terminator and token counts gathered from two kinds of event.
 */
module AnthropicStream {
  import opened Wrappers
  import opened LineStream

  datatype Tokens = Tokens(input: Option<int>, output: Option<int>)

  /** A parsed payload: `null` throws when its `type` is read; absent fields are `None`, absent text is "". */
  datatype Json =
    | Malformed
    | Null
    | Event(kind: string, deltaText: string, messageUsage: Option<Tokens>, usage: Option<Tokens>)

  datatype Usage = Usage(promptTokens: int, completionTokens: int, totalTokens: int)

  datatype Output = Delta(text: string) | Final(usage: Usage)

  datatype Status = Running | Finished | Threw

  datatype State = State(out: seq<Output>, inputTokens: int, outputTokens: int, status: Status)

  const Start := State([], 0, 0, Running)

  function MessageStart(): string { "message_start" }
  function ContentBlockDelta(): string { "content_block_delta" }
  function MessageDelta(): string { "message_delta" }
  function MessageStop(): string { "message_stop" }

  lemma KindsDiffer()
    ensures MessageStart() != ContentBlockDelta() && MessageStart() != MessageDelta() && MessageStart() != MessageStop()
    ensures ContentBlockDelta() != MessageDelta() && ContentBlockDelta() != MessageStop() && MessageDelta() != MessageStop()
  {
    assert |MessageStart()| == 13 && |ContentBlockDelta()| == 19 && |MessageDelta()| == 13 && |MessageStop()| == 12;
    assert MessageStart()[8] == 's' && MessageDelta()[8] == 'd';
  }

  function OrElse(a: Option<int>, b: int): int { match a case Some(x) => x case None => b }

  function Total(inputTokens: int, outputTokens: int): Usage {
    Usage(inputTokens, outputTokens, inputTokens + outputTokens)
  }

  function Finish(s: State): State {
    s.(out := s.out + [Final(Total(s.inputTokens, s.outputTokens))], status := Finished)
  }

  /** The payload of a line the reader looks at, parsed. */
  function Parsed(parse: string -> Json, line: string): Json {
    match Payload(line)
    case None => Malformed
    case Some(p) => if p == "" || p == "[DONE]" then Malformed else parse(p)
  }

  function Handle(parse: string -> Json, s: State, line: string): State {
    if s.status != Running then s
    else
      match Parsed(parse, line)
      case Malformed => s
      case Null => s.(status := Threw)
      case Event(kind, text, messageUsage, usage) =>
        if kind == MessageStart() && messageUsage.Some? then s.(inputTokens := OrElse(messageUsage.value.input, 0))
        else if kind == ContentBlockDelta() && text != "" then s.(out := s.out + [Delta(text)])
        else if kind == MessageDelta() && usage.Some? then s.(outputTokens := OrElse(usage.value.output, s.outputTokens))
        else if kind == MessageStop() then Finish(s)
        else s
  }

  function Handler(parse: string -> Json): (State, string) -> State {
    (s, line) => Handle(parse, s, line)
  }

  function Close(s: State): State { if s.status == Running then Finish(s) else s }

  /** The reader that has the whole text and splits it into complete lines first. */
  function ReadWhole(parse: string -> Json, text: string): State {
    Close(Fold(Handler(parse), Start, Lines(text)))
  }

  method Chat(parse: string -> Json, chunks: seq<string>) returns (out: seq<Output>, threw: bool)
    ensures out == ReadWhole(parse, Concat(chunks)).out
    ensures threw == (ReadWhole(parse, Concat(chunks)).status == Threw)
  {
    KindsDiffer();
    StoppedWhenNotRunning(parse);
    hide MessageStart, ContentBlockDelta, MessageDelta, MessageStop, Payload, Fold, IndexOfNewline, Lines, Rest, Concat, Stopped;
    var buffer := "";
    var inputTokens, outputTokens := 0, 0;
    NothingRead(Handler(parse));
    out := [];
    ghost var text := "";
    for c := 0 to |chunks|
      invariant text == Concat(chunks[..c])
      invariant State(out, inputTokens, outputTokens, Running) == Fold(Handler(parse), Start, Lines(text))
      invariant buffer == Rest(text)
    {
      BufferCarries(Handler(parse), Start, text, chunks[c]);
      ConcatSnoc(chunks, c);
      text := text + chunks[c];
      buffer := buffer + chunks[c];
      var nl := IndexOfNewline(buffer);
      while nl >= 0
        invariant nl == IndexOfNewline(buffer)
        invariant Fold(Handler(parse), State(out, inputTokens, outputTokens, Running), Lines(buffer))
                  == Fold(Handler(parse), Start, Lines(text))
        invariant Rest(buffer) == Rest(text)
        decreases |buffer|
      {
        BufferHolds(Handler(parse), State(out, inputTokens, outputTokens, Running), buffer);
        var line := buffer[..nl];
        ghost var later := Lines(buffer[nl + 1..]);
        FoldFirst(Handler(parse), State(out, inputTokens, outputTokens, Running), line, later);
        buffer := buffer[nl + 1..];
        nl := IndexOfNewline(buffer);
        var payload := Payload(line);
        if payload.None? || payload.value == "" || payload.value == "[DONE]" {
          continue;
        }
        var event := parse(payload.value);
        if event.Malformed? {
          continue;
        }
        if event.Null? {
          StoppedStays(Handler(parse), State(out, inputTokens, outputTokens, Threw), later);
          StoppedAt(Handler(parse), Start, chunks, c + 1, State(out, inputTokens, outputTokens, Threw));
          return out, true;
        }
        if event.kind == MessageStart() && event.messageUsage.Some? {
          inputTokens := OrElse(event.messageUsage.value.input, 0);
        }
        if event.kind == ContentBlockDelta() && event.deltaText != "" {
          out := out + [Delta(event.deltaText)];
        }
        if event.kind == MessageDelta() && event.usage.Some? {
          outputTokens := OrElse(event.usage.value.output, outputTokens);
        }
        if event.kind == MessageStop() {
          out := out + [Final(Total(inputTokens, outputTokens))];
          StoppedStays(Handler(parse), State(out, inputTokens, outputTokens, Finished), later);
          StoppedAt(Handler(parse), Start, chunks, c + 1, State(out, inputTokens, outputTokens, Finished));
          return out, false;
        }
      }
      BufferHolds(Handler(parse), State(out, inputTokens, outputTokens, Running), buffer);
    }
    assert chunks[..|chunks|] == chunks;
    out := out + [Final(Total(inputTokens, outputTokens))];
    return out, false;
  }

  lemma StoppedWhenNotRunning(parse: string -> Json)
    ensures forall s: State | s.status != Running :: Stopped(Handler(parse), s)
  {
  }

  lemma NothingRead(step: (State, string) -> State)
    ensures Fold(step, Start, Lines("")) == Start && Rest("") == "" && Concat([]) == ""
  {
  }

  // ---------------------------------------------------------------- what the output is

  predicate Ends(parse: string -> Json, line: string) {
    var j := Parsed(parse, line);
    j.Null? || (j.Event? && j.kind == MessageStop())
  }

  function Deltas(parse: string -> Json, lines: seq<string>): seq<Output> {
    if lines == [] then []
    else
      var j := Parsed(parse, lines[|lines| - 1]);
      Deltas(parse, lines[..|lines| - 1])
      + (if j.Event? && j.kind == ContentBlockDelta() && j.deltaText != "" then [Delta(j.deltaText)] else [])
  }

  /** The input count of the last `message_start` with usage, 0 if it or its count is missing. */
  function InputTokens(parse: string -> Json, lines: seq<string>): int {
    if lines == [] then 0
    else
      var j := Parsed(parse, lines[|lines| - 1]);
      if j.Event? && j.kind == MessageStart() && j.messageUsage.Some? then OrElse(j.messageUsage.value.input, 0)
      else InputTokens(parse, lines[..|lines| - 1])
  }

  /** The last output count that any `message_delta` reports, 0 if none does. */
  function OutputTokens(parse: string -> Json, lines: seq<string>): int {
    if lines == [] then 0
    else
      var j := Parsed(parse, lines[|lines| - 1]);
      if j.Event? && j.kind == MessageDelta() && j.usage.Some? && j.usage.value.output.Some? then j.usage.value.output.value
      else OutputTokens(parse, lines[..|lines| - 1])
  }

  function Gathered(parse: string -> Json, lines: seq<string>): State {
    State(Deltas(parse, lines), InputTokens(parse, lines), OutputTokens(parse, lines), Running)
  }

  lemma {:induction false} FoldBeforeEnd(parse: string -> Json, lines: seq<string>)
    requires forall line | line in lines :: !Ends(parse, line)
    ensures Fold(Handler(parse), Start, lines) == Gathered(parse, lines)
    decreases lines
  {
    hide MessageStart, ContentBlockDelta, MessageDelta, MessageStop, Payload;
    KindsDiffer();
    if lines != [] {
      var n := |lines| - 1;
      FoldBeforeEnd(parse, lines[..n]);
      assert lines == lines[..n] + [lines[n]];
      FoldSnoc(Handler(parse), Start, lines[..n], lines[n]);
      assert !Ends(parse, lines[n]);
    }
  }

  /** Without an ending line: all deltas of the complete lines, then one terminal chunk with the gathered usage. */
  lemma OutputWithoutEnd(parse: string -> Json, text: string)
    requires forall line | line in Lines(text) :: !Ends(parse, line)
    ensures ReadWhole(parse, text) == Finish(Gathered(parse, Lines(text)))
  {
    FoldBeforeEnd(parse, Lines(text));
  }

  /**
   * With line `k` the first to end the stream only the lines before it count: `message_stop`
   * adds the one terminal chunk, a `null` payload throws after the deltas already yielded.
   */
  lemma OutputUpToEnd(parse: string -> Json, text: string, k: nat)
    requires k < |Lines(text)| && Ends(parse, Lines(text)[k])
    requires forall i | 0 <= i < k :: !Ends(parse, Lines(text)[i])
    ensures var s := Gathered(parse, Lines(text)[..k]);
            ReadWhole(parse, text) == if Parsed(parse, Lines(text)[k]).Event? then Finish(s) else s.(status := Threw)
  {
    FoldBeforeEnd(parse, Lines(text)[..k]);
    FoldUpTo(Handler(parse), Start, Lines(text), k);
  }
}
