/** From what the lines of an Anthropic stream carry to what its reader yields. */
module AnthropicEvents {
  import opened Wrappers
  import opened LineStream
  import opened DataLines
  import opened AnthropicStream

  /** The text of all deltas of an output. */
  function TextOf(out: seq<Output>): string {
    if out == [] then "" else TextOf(out[..|out| - 1]) + (match out[|out| - 1] case Delta(t) => t case Final(_) => "")
  }

  /** An event of this kind; an empty message and `[DONE]` are none. */
  predicate IsKind(parse: string -> Json, message: Option<string>, kind: string) {
    message.Some? && message.value !in {"", "[DONE]"} && parse(message.value).Event? && parse(message.value).kind == kind
  }

  function Said(parse: string -> Json, message: Option<string>): string {
    if IsKind(parse, message, "content_block_delta") then parse(message.value).deltaText else ""
  }

  function AllSaid(parse: string -> Json, messages: seq<Option<string>>): string {
    if messages == [] then "" else AllSaid(parse, messages[..|messages| - 1]) + Said(parse, messages[|messages| - 1])
  }

  /** `message_start` with usage reports the prompt's tokens, 0 if their count is missing. */
  function PromptReported(parse: string -> Json, message: Option<string>): Option<int> {
    if IsKind(parse, message, "message_start") && parse(message.value).messageUsage.Some?
    then Some(match parse(message.value).messageUsage.value.input case Some(n) => n case None => 0)
    else None
  }

  /** `message_delta` with a count reports the completion's tokens. */
  function CompletionReported(parse: string -> Json, message: Option<string>): Option<int> {
    if IsKind(parse, message, "message_delta") && parse(message.value).usage.Some? then parse(message.value).usage.value.output else None
  }

  function Prompts(parse: string -> Json): (Option<string>, int) -> bool { (m: Option<string>, n: int) => PromptReported(parse, m) == Some(n) }

  function Completions(parse: string -> Json): (Option<string>, int) -> bool {
    (m: Option<string>, n: int) => CompletionReported(parse, m) == Some(n)
  }

  /** The last report, 0 if there is none. */
  ghost predicate IsLastCount(reports: (Option<string>, int) -> bool, messages: seq<Option<string>>, n: int) {
    IsLastReport(reports, messages, Some(n)) || (n == 0 && IsLastReport(reports, messages, None))
  }

  predicate IsNull(parse: string -> Json, message: Option<string>) {
    message.Some? && message.value !in {"", "[DONE]"} && parse(message.value) == Null
  }

  /** Messages that neither end the stream nor throw. */
  ghost predicate GoOn(parse: string -> Json, messages: seq<Option<string>>) {
    forall m | m in messages :: !IsNull(parse, m) && !IsKind(parse, m, "message_stop")
  }

  /** Non-empty deltas that spell the messages' text, then the one terminal chunk with the last counts and their sum. */
  ghost predicate IsReading(parse: string -> Json, messages: seq<Option<string>>, out: seq<Output>) {
    && out != [] && out[|out| - 1].Final?
    && IsLastCount(Prompts(parse), messages, out[|out| - 1].usage.promptTokens)
    && IsLastCount(Completions(parse), messages, out[|out| - 1].usage.completionTokens)
    && out[|out| - 1].usage.totalTokens == out[|out| - 1].usage.promptTokens + out[|out| - 1].usage.completionTokens
    && (forall i | 0 <= i < |out| - 1 :: out[i].Delta? && out[i].text != "")
    && TextOf(out) == AllSaid(parse, messages)
  }

  lemma LineKinds(parse: string -> Json, line: string, message: Option<string>)
    requires Payload(line) == message
    ensures var j := Parsed(parse, line);
            && (j.Null? <==> IsNull(parse, message))
            && (forall kind :: j.Event? && j.kind == kind <==> IsKind(parse, message, kind))
            && (j.Event? ==> message.Some? && j == parse(message.value))
  {
  }

  lemma {:induction false} DeltasSpell(parse: string -> Json, lines: seq<string>, messages: seq<Option<string>>)
    requires Carry(lines, messages)
    ensures TextOf(Deltas(parse, lines)) == AllSaid(parse, messages)
    ensures forall d | d in Deltas(parse, lines) :: d.Delta? && d.text != ""
    decreases lines
  {
    if lines != [] {
      var n := |lines| - 1;
      CarryPayloads(lines, messages);
      DeltasSpell(parse, lines[..n], messages[..n]);
      LineKinds(parse, lines[n], messages[n]);
      assert IsKind(parse, messages[n], ContentBlockDelta()) <==> Parsed(parse, lines[n]).Event? && Parsed(parse, lines[n]).kind == ContentBlockDelta();
      TextSnoc(Deltas(parse, lines[..n]), Said(parse, messages[n]));
      hide Payload, TextOf, Parsed, IsKind, IsNull;
    }
  }

  lemma {:induction false} PromptsCounted(parse: string -> Json, lines: seq<string>, messages: seq<Option<string>>)
    requires Carry(lines, messages)
    ensures IsLastCount(Prompts(parse), messages, InputTokens(parse, lines))
    decreases lines
  {
    if lines == [] {
      assert IsLastReport(Prompts(parse), messages, None);
    } else {
      var n := |lines| - 1;
      CarryPayloads(lines, messages);
      PromptsCounted(parse, lines[..n], messages[..n]);
      LineKinds(parse, lines[n], messages[n]);
      assert IsKind(parse, messages[n], MessageStart()) <==> Parsed(parse, lines[n]).Event? && Parsed(parse, lines[n]).kind == MessageStart();
      LastCountSnoc(Prompts(parse), messages, InputTokens(parse, lines[..n]), PromptReported(parse, messages[n]));
      hide Payload, IsLastCount, Parsed, IsKind, IsNull;
    }
  }

  lemma {:induction false} CompletionsCounted(parse: string -> Json, lines: seq<string>, messages: seq<Option<string>>)
    requires Carry(lines, messages)
    ensures IsLastCount(Completions(parse), messages, OutputTokens(parse, lines))
    decreases lines
  {
    if lines == [] {
      assert IsLastReport(Completions(parse), messages, None);
    } else {
      var n := |lines| - 1;
      CarryPayloads(lines, messages);
      CompletionsCounted(parse, lines[..n], messages[..n]);
      LineKinds(parse, lines[n], messages[n]);
      assert IsKind(parse, messages[n], MessageDelta()) <==> Parsed(parse, lines[n]).Event? && Parsed(parse, lines[n]).kind == MessageDelta();
      LastCountSnoc(Completions(parse), messages, OutputTokens(parse, lines[..n]), CompletionReported(parse, messages[n]));
      hide Payload, IsLastCount, Parsed, IsKind, IsNull;
    }
  }

  lemma TextSnoc(out: seq<Output>, said: string)
    ensures TextOf(out + [Delta(said)]) == TextOf(out) + said && TextOf(out) + "" == TextOf(out) && out + [] == out
  {
    assert (out + [Delta(said)])[..|out|] == out;
  }

  lemma LastCountSnoc(reports: (Option<string>, int) -> bool, messages: seq<Option<string>>, before: int, now: Option<int>)
    requires messages != [] && IsLastCount(reports, messages[..|messages| - 1], before)
    requires ReportsJust(reports, messages[|messages| - 1], now)
    ensures IsLastCount(reports, messages, if now.Some? then now.value else before)
  {
    var init := messages[..|messages| - 1];
    if IsLastReport(reports, init, Some(before)) {
      LastReportSnoc(reports, messages, Some(before), now);
    } else {
      LastReportSnoc(reports, messages, None, now);
    }
  }

  lemma NoneEnds(parse: string -> Json, lines: seq<string>, messages: seq<Option<string>>)
    requires Carry(lines, messages) && GoOn(parse, messages)
    ensures forall line | line in lines :: !Ends(parse, line)
  {
    CarryPayloads(lines, messages);
    forall i | 0 <= i < |lines|
      ensures !Ends(parse, lines[i])
    {
      LineKinds(parse, lines[i], messages[i]);
      assert messages[i] in messages;
      assert !IsKind(parse, messages[i], MessageStop());
    }
  }

  lemma Terminated(deltas: seq<Output>, usage: Usage)
    requires forall d | d in deltas :: d.Delta? && d.text != ""
    ensures var out := deltas + [Final(usage)];
            TextOf(out) == TextOf(deltas) && forall i | 0 <= i < |out| - 1 :: out[i].Delta? && out[i].text != ""
  {
    var out := deltas + [Final(usage)];
    assert out[..|out| - 1] == deltas;
    assert forall i | 0 <= i < |out| - 1 :: out[i] in deltas;
  }

  lemma ReadingEnds(parse: string -> Json, lines: seq<string>, messages: seq<Option<string>>)
    requires Carry(lines, messages) && GoOn(parse, messages)
    ensures Finish(Gathered(parse, lines)).status == Finished && IsReading(parse, messages, Finish(Gathered(parse, lines)).out)
  {
    DeltasSpell(parse, lines, messages);
    PromptsCounted(parse, lines, messages);
    CompletionsCounted(parse, lines, messages);
    var out := Finish(Gathered(parse, lines)).out;
    Terminated(Deltas(parse, lines), out[|out| - 1].usage);
    hide TextOf, Deltas, AllSaid, GoOn, InputTokens, OutputTokens, Carry, IsLastCount;
  }

  /** Where the text is cut at a line and the lines before it go on. */
  lemma CutAtLine(parse: string -> Json, lines: seq<string>, messages: seq<Option<string>>, last: string, after: string)
    requires Carry(lines, messages) && GoOn(parse, messages) && '\n' !in last
    ensures var text := Unlines(lines, last + "\n" + after);
            && |lines| < |Lines(text)| && Lines(text)[..|lines|] == lines && Lines(text)[|lines|] == last
            && forall i | 0 <= i < |lines| :: !Ends(parse, Lines(text)[i])
  {
    var text, k := Unlines(lines, last + "\n" + after), |lines|;
    LinesOfUnlines(lines, last + "\n" + after);
    FirstLine(last, after);
    NoneEnds(parse, lines, messages);
    hide *;
    assert Lines(text) == lines + ([last] + Lines(after));
    assert forall i | 0 <= i < k :: Lines(text)[i] in lines;
  }

  /** A `message_stop` ends the stream with the terminal chunk; nothing that follows counts. */
  lemma StopEndsStream(parse: string -> Json, lines: seq<string>, messages: seq<Option<string>>, last: string, payload: string, after: string)
    requires Carry(lines, messages) && GoOn(parse, messages)
    requires Carries(last, payload) && '\n' !in last && IsKind(parse, Some(payload), "message_stop")
    ensures var s := ReadWhole(parse, Unlines(lines, last + "\n" + after));
            s.status == Finished && IsReading(parse, messages, s.out)
  {
    CutAtLine(parse, lines, messages, last, after);
    PayloadIff(last, payload);
    LineKinds(parse, last, Some(payload));
    ReadingEnds(parse, lines, messages);
    OutputUpToEnd(parse, Unlines(lines, last + "\n" + after), |lines|);
    hide Lines, Unlines, Parsed, Finish, Gathered, ReadWhole, IsReading, Carry, GoOn, Payload, IsKind, IsNull;
  }

  /** A `null` message throws, after the text of the lines before it. */
  lemma NullThrows(parse: string -> Json, lines: seq<string>, messages: seq<Option<string>>, last: string, payload: string, after: string)
    requires Carry(lines, messages) && GoOn(parse, messages)
    requires Carries(last, payload) && '\n' !in last && IsNull(parse, Some(payload))
    ensures var s := ReadWhole(parse, Unlines(lines, last + "\n" + after));
            s.status == Threw && TextOf(s.out) == AllSaid(parse, messages) && forall d | d in s.out :: d.Delta?
  {
    CutAtLine(parse, lines, messages, last, after);
    PayloadIff(last, payload);
    LineKinds(parse, last, Some(payload));
    DeltasSpell(parse, lines, messages);
    OutputUpToEnd(parse, Unlines(lines, last + "\n" + after), |lines|);
    hide Lines, Unlines, Parsed, Finish, Deltas, ReadWhole, Carry, GoOn, Payload, IsKind, IsNull, IsLastCount;
  }

  /** A stream that just stops: the terminal chunk all the same, and an unfinished last line is dropped. */
  lemma StreamStops(parse: string -> Json, lines: seq<string>, messages: seq<Option<string>>, rest: string)
    requires Carry(lines, messages) && GoOn(parse, messages) && '\n' !in rest
    ensures var s := ReadWhole(parse, Unlines(lines, rest));
            s.status == Finished && IsReading(parse, messages, s.out)
  {
    LinesOfUnlines(lines, rest);
    NoLine(rest);
    NoneEnds(parse, lines, messages);
    ReadingEnds(parse, lines, messages);
    assert Lines(Unlines(lines, rest)) == lines;
    OutputWithoutEnd(parse, Unlines(lines, rest));
    hide *;
  }
}
