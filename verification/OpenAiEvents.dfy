/** From what the lines of an OpenAI-compatible stream carry to what its reader yields. */
module OpenAiEvents {
  import opened Wrappers
  import opened LineStream
  import opened DataLines
  import opened OpenAiStream

  /** The text of all deltas of an output. */
  function TextOf(out: seq<Output>): string {
    if out == [] then "" else TextOf(out[..|out| - 1]) + (match out[|out| - 1] case Delta(t) => t case Final(_) => "")
  }

  /** The delta text a message carries. */
  function Said(parse: string -> Json, message: Option<string>): string {
    if message.None? then "" else match parse(message.value) case Chunk(_, delta) => delta case _ => ""
  }

  function AllSaid(parse: string -> Json, messages: seq<Option<string>>): string {
    if messages == [] then "" else AllSaid(parse, messages[..|messages| - 1]) + Said(parse, messages[|messages| - 1])
  }

  function Reported(parse: string -> Json, message: Option<string>): Option<Usage> {
    if message.None? then None else match parse(message.value) case Chunk(usage, _) => usage case _ => None
  }

  function Reports(parse: string -> Json): (Option<string>, Usage) -> bool { (m: Option<string>, u: Usage) => Reported(parse, m) == Some(u) }

  /** Messages that neither end the stream nor throw. */
  ghost predicate GoOn(parse: string -> Json, messages: seq<Option<string>>) {
    forall m | m in messages && m.Some? :: m.value != DONE && parse(m.value) != Null
  }

  /** Non-empty deltas that spell the messages' text, then the one terminal chunk with the last usage. */
  ghost predicate IsReading(parse: string -> Json, messages: seq<Option<string>>, out: seq<Output>) {
    && out != [] && out[|out| - 1].Final? && IsLastReport(Reports(parse), messages, out[|out| - 1].usage)
    && (forall i | 0 <= i < |out| - 1 :: out[i].Delta? && out[i].text != "")
    && TextOf(out) == AllSaid(parse, messages)
  }

  lemma {:induction false} DeltasSpell(parse: string -> Json, lines: seq<string>, messages: seq<Option<string>>)
    requires Carry(lines, messages) && GoOn(parse, messages)
    ensures TextOf(Deltas(parse, lines)) == AllSaid(parse, messages)
    ensures forall d | d in Deltas(parse, lines) :: d.Delta? && d.text != ""
    ensures IsLastReport(Reports(parse), messages, LastUsage(parse, lines))
    decreases lines
  {
    if lines != [] {
      var n := |lines| - 1;
      CarryPayloads(lines, messages);
      assert messages[n] in messages;
      DeltasSpell(parse, lines[..n], messages[..n]);
      TextSnoc(Deltas(parse, lines[..n]), Said(parse, messages[n]));
      LastReportSnoc(Reports(parse), messages, LastUsage(parse, lines[..n]), Reported(parse, messages[n]));
      hide Payload, IsLastReport, TextOf;
    }
  }

  lemma TextSnoc(out: seq<Output>, said: string)
    ensures TextOf(out + [Delta(said)]) == TextOf(out) + said && TextOf(out) + "" == TextOf(out) && out + [] == out
  {
    assert (out + [Delta(said)])[..|out|] == out;
  }

  lemma NoneEnds(parse: string -> Json, lines: seq<string>, messages: seq<Option<string>>)
    requires Carry(lines, messages) && GoOn(parse, messages)
    ensures forall line | line in lines :: !Ends(parse, line)
  {
    CarryPayloads(lines, messages);
    forall i | 0 <= i < |lines|
      ensures !Ends(parse, lines[i])
    {
      assert messages[i] in messages;
    }
  }

  lemma Terminated(deltas: seq<Output>, usage: Option<Usage>)
    requires forall d | d in deltas :: d.Delta? && d.text != ""
    ensures var out := deltas + [Final(usage)];
            TextOf(out) == TextOf(deltas) && forall i | 0 <= i < |out| - 1 :: out[i].Delta? && out[i].text != ""
  {
    var out := deltas + [Final(usage)];
    assert out[..|out| - 1] == deltas;
    assert forall i | 0 <= i < |out| - 1 :: out[i] in deltas;
  }

  lemma ReadingEnds(parse: string -> Json, lines: seq<string>, messages: seq<Option<string>>)
    requires Carry(lines, messages) && GoOn(parse, messages)
    ensures IsReading(parse, messages, Deltas(parse, lines) + [Final(LastUsage(parse, lines))])
  {
    DeltasSpell(parse, lines, messages);
    var out := Deltas(parse, lines) + [Final(LastUsage(parse, lines))];
    Terminated(Deltas(parse, lines), out[|out| - 1].usage);
    hide TextOf, Deltas, AllSaid, GoOn, LastUsage, Carry, IsLastReport;
  }

  /**
   * A stream that ends in a `data: [DONE]` line: the reader yields what the lines before it carry and
   * the terminal chunk, and nothing that follows counts.
   */
  lemma DoneEndsStream(parse: string -> Json, lines: seq<string>, messages: seq<Option<string>>, done: string, after: string)
    requires Carry(lines, messages) && GoOn(parse, messages) && Carries(done, DONE) && '\n' !in done
    ensures var s := ReadWhole(parse, Unlines(lines, done + "\n" + after));
            s.status == Finished && IsReading(parse, messages, s.out)
  {
    var text, k := Unlines(lines, done + "\n" + after), |lines|;
    LinesOfUnlines(lines, done + "\n" + after);
    FirstLine(done, after);
    PayloadIff(done, DONE);
    NoneEnds(parse, lines, messages);
    ReadingEnds(parse, lines, messages);
    assert Lines(text)[..k] == lines && Lines(text)[k] == done;
    assert forall i | 0 <= i < k :: Lines(text)[i] in lines;
    OutputUpToEnd(parse, text, k);
    hide *;
    assert Ends(parse, done);
  }

  /** A stream that just stops: the same, and an unfinished last line is dropped. */
  lemma StreamStops(parse: string -> Json, lines: seq<string>, messages: seq<Option<string>>, rest: string)
    requires Carry(lines, messages) && GoOn(parse, messages) && '\n' !in rest
    ensures var s := ReadWhole(parse, Unlines(lines, rest));
            s.status == Finished && IsReading(parse, messages, s.out)
  {
    LinesOfUnlines(lines, rest);
    NoLine(rest);
    NoneEnds(parse, lines, messages);
    ReadingEnds(parse, lines, messages);
    assert Lines(Unlines(lines, rest)) == lines;
    OutputWithoutEnd(parse, Unlines(lines, rest));
    hide *;
  }

  /** A `null` message throws, after the text of the lines before it. */
  lemma NullThrows(parse: string -> Json, lines: seq<string>, messages: seq<Option<string>>, last: string, payload: string, after: string)
    requires Carry(lines, messages) && GoOn(parse, messages) && Carries(last, payload) && '\n' !in last
    requires payload != DONE && parse(payload) == Null
    ensures var s := ReadWhole(parse, Unlines(lines, last + "\n" + after));
            s.status == Threw && TextOf(s.out) == AllSaid(parse, messages) && forall d | d in s.out :: d.Delta?
  {
    var text, k := Unlines(lines, last + "\n" + after), |lines|;
    LinesOfUnlines(lines, last + "\n" + after);
    FirstLine(last, after);
    PayloadIff(last, payload);
    NoneEnds(parse, lines, messages);
    DeltasSpell(parse, lines, messages);
    assert Lines(text)[..k] == lines && Lines(text)[k] == last;
    assert forall i | 0 <= i < k :: Lines(text)[i] in lines;
    OutputUpToEnd(parse, text, k);
    hide *;
    assert Ends(parse, last);
  }
}
