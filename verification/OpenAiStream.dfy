/**
 * The OpenAI-compatible streaming reader.  JSON parsing is a parameter; what matters
 * of a parsed value is whether it is `null` (reading a property of which throws), its
 * usage if any, and its delta text ("" for none).
 */
module OpenAiStream {
  import opened Wrappers
  import opened LineStream

  datatype Usage = Usage(promptTokens: int, completionTokens: int, totalTokens: int)

  datatype Json = Malformed | Null | Chunk(usage: Option<Usage>, delta: string)

  /** A yielded chunk: a piece of text, or the terminal one with the usage. */
  datatype Output = Delta(text: string) | Final(usage: Option<Usage>)

  datatype Status = Running | Finished | Threw

  datatype State = State(out: seq<Output>, usage: Option<Usage>, status: Status)

  const Start := State([], None, Running)

  const DONE := "[DONE]"

  function Handle(parse: string -> Json, s: State, line: string): State {
    if s.status != Running then s
    else
      match Payload(line)
      case None => s
      case Some(payload) =>
        if payload == DONE then s.(out := s.out + [Final(s.usage)], status := Finished)
        else
          match parse(payload)
          case Malformed => s
          case Null => s.(status := Threw)
          case Chunk(usage, delta) =>
            s.(usage := if usage.Some? then usage else s.usage,
               out := if delta != "" then s.out + [Delta(delta)] else s.out)
  }

  function Handler(parse: string -> Json): (State, string) -> State {
    (s, line) => Handle(parse, s, line)
  }

  /** The end of the input terminates a reader that is still running. */
  function Close(s: State): State {
    if s.status == Running then s.(out := s.out + [Final(s.usage)], status := Finished) else s
  }

  /** The reader that has the whole text and splits it into complete lines first. */
  function ReadWhole(parse: string -> Json, text: string): State {
    Close(Fold(Handler(parse), Start, Lines(text)))
  }

  /** The buffering reader: whatever the chunks, it does what the reader of the whole text does. */
  method Chat(parse: string -> Json, chunks: seq<string>) returns (out: seq<Output>, threw: bool)
    ensures out == ReadWhole(parse, Concat(chunks)).out
    ensures threw == (ReadWhole(parse, Concat(chunks)).status == Threw)
  {
    StoppedWhenNotRunning(parse);
    hide Payload, Fold, IndexOfNewline, Lines, Rest, Concat, Stopped;
    var buffer := "";
    var usage: Option<Usage> := None;
    NothingRead(Handler(parse));
    out := [];
    ghost var text := "";
    for c := 0 to |chunks|
      invariant text == Concat(chunks[..c])
      invariant State(out, usage, Running) == Fold(Handler(parse), Start, Lines(text))
      invariant buffer == Rest(text)
    {
      BufferCarries(Handler(parse), Start, text, chunks[c]);
      ConcatSnoc(chunks, c);
      text := text + chunks[c];
      buffer := buffer + chunks[c];
      var nl := IndexOfNewline(buffer);
      while nl >= 0
        invariant nl == IndexOfNewline(buffer)
        invariant Fold(Handler(parse), State(out, usage, Running), Lines(buffer)) == Fold(Handler(parse), Start, Lines(text))
        invariant Rest(buffer) == Rest(text)
        decreases |buffer|
      {
        BufferHolds(Handler(parse), State(out, usage, Running), buffer);
        var line := buffer[..nl];
        ghost var later := Lines(buffer[nl + 1..]);
        FoldFirst(Handler(parse), State(out, usage, Running), line, later);
        buffer := buffer[nl + 1..];
        nl := IndexOfNewline(buffer);
        var payload := Payload(line);
        if payload.None? {
          continue;
        }
        if payload.value == DONE {
          out := out + [Final(usage)];
          StoppedStays(Handler(parse), State(out, usage, Finished), later);
          StoppedAt(Handler(parse), Start, chunks, c + 1, State(out, usage, Finished));
          return out, false;
        }
        match parse(payload.value) {
          case Malformed =>
          case Null =>
            StoppedStays(Handler(parse), State(out, usage, Threw), later);
            StoppedAt(Handler(parse), Start, chunks, c + 1, State(out, usage, Threw));
            return out, true;
          case Chunk(u, delta) =>
            if u.Some? {
              usage := u;
            }
            if delta != "" {
              out := out + [Delta(delta)];
            }
        }
      }
      BufferHolds(Handler(parse), State(out, usage, Running), buffer);
    }
    assert chunks[..|chunks|] == chunks;
    out := out + [Final(usage)];
    return out, false;
  }

  lemma StoppedWhenNotRunning(parse: string -> Json)
    ensures forall s: State | s.status != Running :: Stopped(Handler(parse), s)
  {
  }

  lemma NothingRead(step: (State, string) -> State)
    ensures Fold(step, Start, Lines("")) == Start && Rest("") == "" && Concat([]) == ""
  {
  }

  // ---------------------------------------------------------------- what the output is

  /** Lines that end the stream: the sentinel, or a `null` payload. */
  predicate Ends(parse: string -> Json, line: string) {
    match Payload(line)
    case None => false
    case Some(p) => p == DONE || parse(p) == Null
  }

  function Parsed(parse: string -> Json, line: string): Json {
    match Payload(line)
    case None => Malformed
    case Some(p) => parse(p)
  }

  /** The non-empty delta texts of the lines, in order. */
  function Deltas(parse: string -> Json, lines: seq<string>): seq<Output> {
    if lines == [] then []
    else
      var j := Parsed(parse, lines[|lines| - 1]);
      Deltas(parse, lines[..|lines| - 1]) + (if j.Chunk? && j.delta != "" then [Delta(j.delta)] else [])
  }

  /** The usage of the last line that has one. */
  function LastUsage(parse: string -> Json, lines: seq<string>): Option<Usage> {
    if lines == [] then None
    else
      var j := Parsed(parse, lines[|lines| - 1]);
      if j.Chunk? && j.usage.Some? then j.usage else LastUsage(parse, lines[..|lines| - 1])
  }

  lemma {:induction false} FoldBeforeEnd(parse: string -> Json, lines: seq<string>)
    requires forall line | line in lines :: !Ends(parse, line)
    ensures Fold(Handler(parse), Start, lines) == State(Deltas(parse, lines), LastUsage(parse, lines), Running)
    decreases lines
  {
    hide Payload;
    if lines != [] {
      var n := |lines| - 1;
      FoldBeforeEnd(parse, lines[..n]);
      assert lines == lines[..n] + [lines[n]];
      FoldSnoc(Handler(parse), Start, lines[..n], lines[n]);
      assert !Ends(parse, lines[n]);
    }
  }

  /**
   * Output of a stream with no ending line: the deltas of all complete lines, then one
   * terminal chunk with the last usage reported.
   */
  lemma OutputWithoutEnd(parse: string -> Json, text: string)
    requires forall line | line in Lines(text) :: !Ends(parse, line)
    ensures ReadWhole(parse, text)
            == State(Deltas(parse, Lines(text)) + [Final(LastUsage(parse, Lines(text)))], LastUsage(parse, Lines(text)), Finished)
  {
    FoldBeforeEnd(parse, Lines(text));
  }

  /**
   * Output of a stream whose line `k` is the first to end it: only the lines before
   * count.  The sentinel adds the one terminal chunk; a `null` payload throws instead,
   * after the deltas already yielded.
   */
  lemma OutputUpToEnd(parse: string -> Json, text: string, k: nat)
    requires k < |Lines(text)| && Ends(parse, Lines(text)[k])
    requires forall i | 0 <= i < k :: !Ends(parse, Lines(text)[i])
    ensures var before := Lines(text)[..k];
            var usage := LastUsage(parse, before);
            ReadWhole(parse, text) ==
              if Payload(Lines(text)[k]) == Some(DONE) then State(Deltas(parse, before) + [Final(usage)], usage, Finished)
              else State(Deltas(parse, before), usage, Threw)
  {
    FoldBeforeEnd(parse, Lines(text)[..k]);
    FoldUpTo(Handler(parse), Start, Lines(text), k);
  }
}
