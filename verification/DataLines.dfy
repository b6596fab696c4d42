/** What a line carries: which lines have a payload, and which payload that is. */
module DataLines {
  import opened Wrappers
  import opened LineStream

  predicate AllSpace(s: string) { forall c | c in s :: IsSpace(c) }

  /** No white space at either end. */
  predicate IsTrimmed(p: string) { p == "" || (!IsSpace(p[0]) && !IsSpace(p[|p| - 1])) }

  const DATA := "data:"

  /** The first `n` characters are white space and `data:` follows. */
  predicate StartsData(line: string, n: nat) { n <= |line| && AllSpace(line[..n]) && DATA <= line[n..] }

  /** The line is `data:` and the payload, with white space around either. */
  ghost predicate Carries(line: string, payload: string) {
    exists a, b, c :: IsDataLine(line, a, b, payload, c)
  }

  ghost predicate IsDataLine(line: string, a: string, b: string, payload: string, c: string) {
    AllSpace(a) && AllSpace(b) && AllSpace(c) && IsTrimmed(payload) && line == a + DATA + b + payload + c
  }

  ghost predicate CarriesNothing(line: string) { forall n: nat :: !StartsData(line, n) }

  lemma SpaceCharacters(c: char)
    ensures c in " \t\r\n" ==> IsSpace(c)
    ensures '!' <= c <= '~' ==> !IsSpace(c)
  {
  }

  // ---------------------------------------------------------------- trimming

  lemma {:induction false} TrimStartSkips(a: string, s: string)
    requires AllSpace(a)
    ensures TrimStart(a + s) == TrimStart(s)
    decreases a
  {
    if a == [] {
      assert a + s == s;
    } else {
      assert (a + s)[1..] == a[1..] + s;
      assert a[0] in a;
      TrimStartSkips(a[1..], s);
    }
  }

  lemma {:induction false} TrimEndDrops(s: string, c: string)
    requires AllSpace(c)
    ensures TrimEnd(s + c) == TrimEnd(s)
    decreases c
  {
    if c == [] {
      assert s + c == s;
    } else {
      var n := |c| - 1;
      assert (s + c)[..|s + c| - 1] == s + c[..n];
      assert c[n] in c;
      TrimEndDrops(s, c[..n]);
    }
  }

  /** Trimming removes exactly the white space around a trimmed text. */
  lemma TrimOfPadded(a: string, p: string, c: string)
    requires AllSpace(a) && AllSpace(c) && IsTrimmed(p)
    ensures Trim(a + p + c) == p
  {
    assert a + p + c == a + (p + c);
    TrimStartSkips(a, p + c);
    if p == "" {
      assert p + c == c + "";
      TrimStartSkips(c, "");
    } else {
      assert TrimStart(p + c) == p + c;
      TrimEndDrops(p, c);
    }
  }

  lemma OneMoreSpace(x: char, a: string, t: string)
    requires IsSpace(x) && AllSpace(a)
    ensures AllSpace([x] + a) && [x] + (a + t) == [x] + a + t
  {
  }

  lemma {:induction false} StartOf(s: string) returns (a: string)
    ensures AllSpace(a) && s == a + TrimStart(s)
    ensures TrimStart(s) == "" || !IsSpace(TrimStart(s)[0])
    decreases s
  {
    if s != [] && IsSpace(s[0]) {
      var rest := StartOf(s[1..]);
      a := [s[0]] + rest;
      OneMoreSpace(s[0], rest, TrimStart(s[1..]));
      assert s == [s[0]] + s[1..];
    } else {
      a := [];
    }
    hide TrimStart, IsSpace;
  }

  lemma {:induction false} EndOf(s: string) returns (c: string)
    ensures AllSpace(c) && s == TrimEnd(s) + c
    ensures TrimEnd(s) == "" || !IsSpace(TrimEnd(s)[|TrimEnd(s)| - 1])
    decreases s
  {
    if s != [] && IsSpace(s[|s| - 1]) {
      var n := |s| - 1;
      c := EndOf(s[..n]);
      c := c + [s[n]];
      assert s == s[..n] + [s[n]];
    } else {
      c := [];
    }
  }

  /** Every text is a trimmed one with white space around it. */
  lemma TrimIs(s: string) returns (a: string, c: string)
    ensures AllSpace(a) && AllSpace(c) && IsTrimmed(Trim(s)) && s == a + Trim(s) + c
  {
    a := StartOf(s);
    c := EndOf(TrimStart(s));
    assert s == a + (Trim(s) + c);
    assert Trim(s) != "" ==> Trim(s)[0] == TrimStart(s)[0];
  }

  // ---------------------------------------------------------------- payloads

  lemma EmptyPayload(a: string, c: string)
    requires AllSpace(a) && AllSpace(c)
    ensures Payload(a + DATA + c) == Some("")
  {
    TrimOfPadded(a, DATA, c);
    assert DATA[5..] == "";
  }

  lemma SomePayload(a: string, b: string, p: string, c: string)
    requires AllSpace(a) && AllSpace(b) && AllSpace(c) && IsTrimmed(p) && p != ""
    ensures Payload(a + (DATA + b + p) + c) == Some(p)
  {
    var inner := DATA + b + p;
    assert inner[0] == 'd' && inner[|inner| - 1] == p[|p| - 1];
    TrimOfPadded(a, inner, c);
    assert inner[..5] == DATA && inner[5..] == b + p;
    TrimOfPadded(b, p, "");
    assert b + p + "" == b + p;
    hide Trim;
  }

  /** White space around `data:` and around the payload does not count. */
  lemma DataLinePayload(a: string, b: string, p: string, c: string)
    requires AllSpace(a) && AllSpace(b) && AllSpace(c) && IsTrimmed(p)
    ensures Payload(a + DATA + b + p + c) == Some(p)
  {
    if p == "" {
      EmptyPayload(a, b + c);
      assert a + DATA + b + p + c == a + DATA + (b + c);
    } else {
      SomePayload(a, b, p, c);
      assert a + DATA + b + p + c == a + (DATA + b + p) + c;
    }
    hide Payload, IsSpace;
  }

  lemma CarriedIsPayload(line: string, payload: string)
    requires Carries(line, payload)
    ensures Payload(line) == Some(payload)
  {
    var a, b, c :| IsDataLine(line, a, b, payload, c);
    DataLinePayload(a, b, payload, c);
  }

  lemma StartIsCarried(line: string, n: nat) returns (payload: string)
    requires StartsData(line, n)
    ensures Carries(line, payload)
  {
    var rest := line[n + 5..];
    var b, c := TrimIs(rest);
    payload := Trim(rest);
    assert line[n..] == DATA + rest;
    assert line == line[..n] + line[n..];
    assert IsDataLine(line, line[..n], b, payload, c);
  }

  lemma PayloadIsCarried(line: string)
    requires Payload(line).Some?
    ensures exists n: nat :: StartsData(line, n)
  {
    var a, c := TrimIs(line);
    var t := Trim(line);
    assert line[..|a|] == a && line[|a|..] == t + c;
    assert (t + c)[..5] == t[..5];
    assert StartsData(line, |a|);
  }

  /**
   * A line has a payload exactly when its first characters other than white space are `data:`, and
   * its payload is what follows without the white space around it.
   */
  lemma PayloadIff(line: string, payload: string)
    ensures Payload(line) == Some(payload) <==> Carries(line, payload)
    ensures Payload(line) == None <==> CarriesNothing(line)
  {
    if n: nat :| StartsData(line, n) {
      var p := StartIsCarried(line, n);
      CarriedIsPayload(line, p);
    }
    if Payload(line).Some? {
      PayloadIsCarried(line);
    }
    if Carries(line, payload) {
      CarriedIsPayload(line, payload);
    }
    hide Payload, Carries, StartsData;
  }

  // ---------------------------------------------------------------- whole texts

  /** Lines written out are read back. */
  lemma {:induction false} LinesOfUnlines(lines: seq<string>, rest: string)
    requires forall line | line in lines :: '\n' !in line
    ensures Lines(Unlines(lines, rest)) == lines + Lines(rest) && Rest(Unlines(lines, rest)) == Rest(rest)
    decreases lines
  {
    if lines == [] {
      assert lines + Lines(rest) == Lines(rest);
    } else {
      LinesOfUnlines(lines[1..], rest);
      FirstLine(lines[0], Unlines(lines[1..], rest));
      assert lines == [lines[0]] + lines[1..];
      OneMoreLine(lines[0], lines[1..], Lines(rest));
    }
    hide Lines, Rest;
  }

  /** What each line of a stream carries. */
  ghost predicate Carry(lines: seq<string>, messages: seq<Option<string>>) {
    && |lines| == |messages|
    && forall i | 0 <= i < |lines| ::
         '\n' !in lines[i] && (if messages[i].Some? then Carries(lines[i], messages[i].value) else CarriesNothing(lines[i]))
  }

  lemma CarryPayloads(lines: seq<string>, messages: seq<Option<string>>)
    requires Carry(lines, messages)
    ensures forall i | 0 <= i < |lines| :: Payload(lines[i]) == messages[i]
  {
    forall i | 0 <= i < |lines|
      ensures Payload(lines[i]) == messages[i]
    {
      PayloadIff(lines[i], if messages[i].Some? then messages[i].value else "");
    }
  }

  /** The value reported by the last message that reports any. */
  ghost predicate IsLastReport<T(!new)>(reports: (Option<string>, T) -> bool, messages: seq<Option<string>>, last: Option<T>) {
    match last
    case None => forall i, x | 0 <= i < |messages| :: !reports(messages[i], x)
    case Some(value) =>
      exists i :: 0 <= i < |messages| && reports(messages[i], value) && forall j, x | i < j < |messages| :: !reports(messages[j], x)
  }

  ghost predicate ReportsJust<T(!new)>(reports: (Option<string>, T) -> bool, message: Option<string>, value: Option<T>) {
    forall x :: reports(message, x) <==> value == Some(x)
  }

  lemma LastReportSnoc<T(!new)>(reports: (Option<string>, T) -> bool, messages: seq<Option<string>>, before: Option<T>, now: Option<T>)
    requires messages != [] && IsLastReport(reports, messages[..|messages| - 1], before)
    requires ReportsJust(reports, messages[|messages| - 1], now)
    ensures IsLastReport(reports, messages, if now.Some? then now else before)
  {
    var n := |messages| - 1;
    if now.Some? {
      assert reports(messages[n], now.value);
    } else {
      forall j, x | 0 <= j < |messages| && reports(messages[j], x)
        ensures j < n && reports(messages[..n][j], x)
      {
        assert reports(messages[n], x) <==> now == Some(x);
      }
      if before.Some? {
        var i :| 0 <= i < n && reports(messages[..n][i], before.value) && forall j, x | i < j < n :: !reports(messages[..n][j], x);
        assert reports(messages[i], before.value);
      }
    }
  }
}
