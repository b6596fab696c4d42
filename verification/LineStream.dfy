/** Text cut into lines, whichever way it arrives: what both streaming readers share. */
module LineStream {
  import opened Wrappers

  function IndexOfNewline(s: string): int {
    if s == [] then -1
    else if s[0] == '\n' then 0
    else
      var i := IndexOfNewline(s[1..]);
      if i < 0 then -1 else i + 1
  }

  /** The complete lines of a text, without their newlines. */
  function Lines(text: string): seq<string> {
    NewlineFacts(text);
    var nl := IndexOfNewline(text);
    if nl < 0 then [] else [text[..nl]] + Lines(text[nl + 1..])
  }

  /** What follows the last newline. */
  function Rest(text: string): string {
    NewlineFacts(text);
    var nl := IndexOfNewline(text);
    if nl < 0 then text else Rest(text[nl + 1..])
  }

  function Concat(chunks: seq<string>): string {
    if chunks == [] then [] else Concat(chunks[..|chunks| - 1]) + chunks[|chunks| - 1]
  }

  lemma {:induction false} NewlineFacts(s: string)
    ensures -1 <= IndexOfNewline(s) < |s|
    ensures IndexOfNewline(s) >= 0 ==> s[IndexOfNewline(s)] == '\n'
    ensures '\n' in s <==> IndexOfNewline(s) >= 0
    ensures forall k | 0 <= k < |s| && (IndexOfNewline(s) < 0 || k < IndexOfNewline(s)) :: s[k] != '\n'
    decreases s
  {
    if s != [] && s[0] != '\n' {
      NewlineFacts(s[1..]);
      assert s == [s[0]] + s[1..];
    }
  }

  lemma {:induction false} NewlineIsFirst(s: string, nl: nat)
    requires nl < |s| && s[nl] == '\n' && forall k | 0 <= k < nl :: s[k] != '\n'
    ensures IndexOfNewline(s) == nl
    decreases nl
  {
    if nl > 0 {
      NewlineIsFirst(s[1..], nl - 1);
    }
  }

  /** Appending text only adds to the unfinished last line. */
  lemma {:induction false} LinesOfAppend(a: string, b: string)
    ensures Lines(a + b) == Lines(a) + Lines(Rest(a) + b)
    ensures Rest(a + b) == Rest(Rest(a) + b)
    decreases |a|
  {
    hide *;
    if '\n' in a {
      var head, tail := CutAtNewline(a);
      FirstLine(head, tail);
      FirstLine(head, tail + b);
      assert a + b == head + "\n" + (tail + b);
      LinesOfAppend(tail, b);
      OneMoreLine(head, Lines(tail), Lines(Rest(tail) + b));
    } else {
      NoLine(a);
      assert [] + Lines(a + b) == Lines(a + b);
    }
  }

  lemma OneMoreLine(head: string, some: seq<string>, more: seq<string>)
    ensures [head] + (some + more) == ([head] + some) + more
  {
  }

  lemma CutAtNewline(a: string) returns (head: string, tail: string)
    requires '\n' in a
    ensures a == head + "\n" + tail && '\n' !in head && |tail| < |a|
  {
    NewlineFacts(a);
    var nl := IndexOfNewline(a);
    hide IndexOfNewline;
    head, tail := a[..nl], a[nl + 1..];
  }

  lemma NoLine(text: string)
    requires '\n' !in text
    ensures Lines(text) == [] && Rest(text) == text
  {
    NewlineFacts(text);
    hide IndexOfNewline;
  }

  lemma FirstLine(head: string, tail: string)
    requires '\n' !in head
    ensures Lines(head + "\n" + tail) == [head] + Lines(tail) && Rest(head + "\n" + tail) == Rest(tail)
  {
    var text := head + "\n" + tail;
    assert forall k | 0 <= k < |head| :: text[k] == head[k] && head[k] in head;
    NewlineIsFirst(text, |head|);
    assert text[..|head|] == head && text[|head| + 1..] == tail;
  }

  /** Lines and rest are a faithful cut: put back together with newlines they are the text. */
  function Unlines(lines: seq<string>, rest: string): string {
    if lines == [] then rest else lines[0] + "\n" + Unlines(lines[1..], rest)
  }

  lemma {:induction false} LinesRejoin(text: string)
    ensures Unlines(Lines(text), Rest(text)) == text
    ensures forall line | line in Lines(text) :: '\n' !in line
    ensures '\n' !in Rest(text)
    decreases |text|
  {
    hide *;
    if '\n' in text {
      var head, tail := CutAtNewline(text);
      FirstLine(head, tail);
      LinesRejoin(tail);
      UnlinesCons(head, Lines(tail), Rest(tail));
      assert forall line | line in [head] + Lines(tail) :: line == head || line in Lines(tail);
    } else {
      NoLine(text);
      NoUnlines(text);
    }
  }

  lemma UnlinesCons(head: string, lines: seq<string>, rest: string)
    ensures Unlines([head] + lines, rest) == head + "\n" + Unlines(lines, rest)
  {
    assert ([head] + lines)[1..] == lines;
  }

  lemma NoUnlines(rest: string)
    ensures Unlines([], rest) == rest
  {
  }

  // ---------------------------------------------------------------- data lines

  /** White space and line terminators as `String.prototype.trim` knows them. */
  predicate IsSpace(c: char) {
    var n := c as int;
    || n in {9, 10, 11, 12, 13, 32, 0xA0, 0x1680, 0x2028, 0x2029, 0x202F, 0x205F, 0x3000, 0xFEFF}
    || 0x2000 <= n <= 0x200A
  }

  function TrimStart(s: string): string { if s != [] && IsSpace(s[0]) then TrimStart(s[1..]) else s }

  function TrimEnd(s: string): string { if s != [] && IsSpace(s[|s| - 1]) then TrimEnd(s[..|s| - 1]) else s }

  function Trim(s: string): string { TrimEnd(TrimStart(s)) }

  /** The payload of a `data:` line; other lines have none. */
  function Payload(line: string): Option<string> {
    var t := Trim(line);
    if "data:" <= t then Some(Trim(t[5..])) else None
  }

  // ---------------------------------------------------------------- folding over lines

  function Fold<S>(step: (S, string) -> S, s: S, lines: seq<string>): S
    decreases lines
  {
    if lines == [] then s else Fold(step, step(s, lines[0]), lines[1..])
  }

  /** What a buffer holds: nothing complete, or a line and what follows it. */
  lemma BufferHolds<S>(step: (S, string) -> S, s: S, buffer: string)
    ensures var nl := IndexOfNewline(buffer);
            if nl < 0 then Fold(step, s, Lines(buffer)) == s && Rest(buffer) == buffer
            else nl < |buffer| && Lines(buffer) == [buffer[..nl]] + Lines(buffer[nl + 1..]) && Rest(buffer) == Rest(buffer[nl + 1..])
  {
    NewlineFacts(buffer);
    hide IndexOfNewline;
  }

  lemma FoldFirst<S>(step: (S, string) -> S, s: S, line: string, later: seq<string>)
    ensures Fold(step, s, [line] + later) == Fold(step, step(s, line), later)
  {
    assert ([line] + later)[1..] == later;
  }

  lemma {:induction false} FoldSplits<S>(step: (S, string) -> S, s: S, a: seq<string>, b: seq<string>)
    ensures Fold(step, s, a + b) == Fold(step, Fold(step, s, a), b)
    decreases a
  {
    if a == [] {
      assert a + b == b;
    } else {
      assert (a + b)[1..] == a[1..] + b;
      FoldSplits(step, step(s, a[0]), a[1..], b);
    }
  }

  /**
   * A buffer carries the reader from one chunk to the next: with `s` reached on the
   * complete lines so far and the rest buffered, reading on from the buffer plus the new
   * chunk is reading the whole text.
   */
  lemma BufferCarries<S>(step: (S, string) -> S, init: S, text: string, chunk: string)
    ensures Fold(step, Fold(step, init, Lines(text)), Lines(Rest(text) + chunk)) == Fold(step, init, Lines(text + chunk))
    ensures Rest(Rest(text) + chunk) == Rest(text + chunk)
  {
    LinesOfAppend(text, chunk);
    FoldSplits(step, init, Lines(text), Lines(Rest(text) + chunk));
  }

  // ---------------------------------------------------------------- stopping early

  /** A state no further line changes. */
  ghost predicate Stopped<S>(step: (S, string) -> S, s: S) { forall line :: step(s, line) == s }

  lemma {:induction false} StoppedStays<S>(step: (S, string) -> S, s: S, lines: seq<string>)
    requires Stopped(step, s)
    ensures Fold(step, s, lines) == s
    decreases lines
  {
    if lines != [] {
      StoppedStays(step, s, lines[1..]);
    }
  }

  lemma ConcatSnoc(chunks: seq<string>, n: nat)
    requires n < |chunks|
    ensures Concat(chunks[..n + 1]) == Concat(chunks[..n]) + chunks[n]
  {
    assert chunks[..n + 1][..n] == chunks[..n];
  }

  lemma {:induction false} ConcatSplits(chunks: seq<string>, n: nat)
    requires n <= |chunks|
    ensures Concat(chunks) == Concat(chunks[..n]) + Concat(chunks[n..])
    decreases |chunks|
  {
    if n == |chunks| {
      assert chunks[..n] == chunks && Concat(chunks[n..]) == "";
    } else {
      var m := |chunks| - 1;
      ConcatSplits(chunks[..m], n);
      assert chunks[..m][..n] == chunks[..n];
      assert chunks[n..][..m - n] == chunks[..m][n..];
    }
  }

  /** A reader that has stopped after n chunks has the result of reading them all. */
  lemma StoppedAt<S>(step: (S, string) -> S, init: S, chunks: seq<string>, n: nat, s: S)
    requires n <= |chunks| && Stopped(step, s) && Fold(step, init, Lines(Concat(chunks[..n]))) == s
    ensures Fold(step, init, Lines(Concat(chunks))) == s
  {
    var text, more := Concat(chunks[..n]), Concat(chunks[n..]);
    ConcatSplits(chunks, n);
    BufferCarries(step, init, text, more);
    StoppedStays(step, s, Lines(Rest(text) + more));
  }

  lemma FoldSnoc<S>(step: (S, string) -> S, s: S, lines: seq<string>, line: string)
    ensures Fold(step, s, lines + [line]) == step(Fold(step, s, lines), line)
  {
    FoldSplits(step, s, lines, [line]);
    var t := Fold(step, s, lines);
    assert [line][1..] == [];
    assert Fold(step, t, [line]) == Fold(step, step(t, line), []);
  }

  /** If line `k` stops the reader, only the lines up to it count. */
  lemma FoldUpTo<S>(step: (S, string) -> S, s: S, lines: seq<string>, k: nat)
    requires k < |lines| && Stopped(step, step(Fold(step, s, lines[..k]), lines[k]))
    ensures Fold(step, s, lines) == step(Fold(step, s, lines[..k]), lines[k])
  {
    hide *;
    var before, rest := lines[..k], lines[k + 1..];
    assert lines == before + [lines[k]] + rest;
    FoldSplits(step, s, before + [lines[k]], rest);
    FoldSnoc(step, s, before, lines[k]);
    StoppedStays(step, step(Fold(step, s, before), lines[k]), rest);
  }
}
