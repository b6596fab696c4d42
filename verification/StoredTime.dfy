/**
 * The stored texts of instants, all in UTC: `datetime('now')` writes `2024-01-31 23:59:59`,
 * connectors store `2024-01-31T23:59:59.999Z` or `2024-01-31T23:59:59+0000`.  How the order of
 * the texts relates to the order of the instants.
 */
module StoredTime {
  import opened Text
  import opened Aggregator

  datatype Form = Plain | Millis(ms: string) | Offset

  /** The digits of a stored instant: `YYYYMMDD` and `HHMMSS`. */
  datatype Stamp = Stamp(date: string, time: string, form: Form)

  predicate AreDigits(s: string, n: nat) { |s| == n && forall c | c in s :: IsDigit(c) }

  predicate IsValid(t: Stamp) {
    AreDigits(t.date, 8) && AreDigits(t.time, 6) && (t.form.Millis? ==> AreDigits(t.form.ms, 3))
  }

  function DateText(date: string): string
    requires |date| == 8
  {
    date[..4] + ("-" + (date[4..6] + ("-" + date[6..])))
  }

  function TimeText(time: string): string
    requires |time| == 6
  {
    time[..2] + (":" + (time[2..4] + (":" + time[4..])))
  }

  function Separator(form: Form): string { if form.Plain? then " " else "T" }

  function Tail(form: Form): string {
    match form
    case Plain => ""
    case Millis(ms) => "." + (ms + "Z")
    case Offset => "+0000"
  }

  function Render(t: Stamp): string
    requires IsValid(t)
  {
    DateText(t.date) + (Separator(t.form) + (TimeText(t.time) + Tail(t.form)))
  }

  /** `YYYYMMDD` as a number orders the days, `HHMMSSmmm` the instants of a day. */
  datatype Instant = Instant(day: nat, time: nat)

  predicate Sooner(a: Instant, b: Instant) { a.day < b.day || (a.day == b.day && a.time < b.time) }

  function InstantOf(t: Stamp): Instant
    requires IsValid(t)
  {
    Instant(Number(t.date), Number(t.time) * 1000 + (if t.form.Millis? then Number(t.form.ms) else 0))
  }

  // ---------------------------------------------------------------- text order, part by part

  lemma {:induction false} BeforeConcat(a: string, s: string, b: string, t: string)
    requires |a| == |b|
    ensures Before(a + s, b + t) <==> Before(a, b) || (a == b && Before(s, t))
    decreases |a|
  {
    if a == [] {
      assert a + s == s && b + t == t;
    } else {
      assert (a + s)[1..] == a[1..] + s && (b + t)[1..] == b[1..] + t;
      BeforeConcat(a[1..], s, b[1..], t);
      assert a == [a[0]] + a[1..] && b == [b[0]] + b[1..];
    }
  }

  /** Of two digit strings of one length the text order is the order of the numbers. */
  lemma {:induction false} DigitsInOrder(a: string, b: string, n: nat)
    requires AreDigits(a, n) && AreDigits(b, n)
    ensures Before(a, b) <==> Number(a) < Number(b)
    ensures a == b <==> Number(a) == Number(b)
    decreases n
  {
    if n > 0 {
      var x, y := a[..n - 1], b[..n - 1];
      assert a == x + [a[n - 1]] && b == y + [b[n - 1]];
      DigitsInOrder(x, y, n - 1);
      assert a[n - 1] in a && b[n - 1] in b;
      BeforeConcat(x, [a[n - 1]], y, [b[n - 1]]);
      assert Before([a[n - 1]], [b[n - 1]]) <==> a[n - 1] < b[n - 1];
    }
  }

  lemma SameSeparator(c: string, s: string, t: string)
    ensures Before(c + s, c + t) <==> Before(s, t)
  {
    BeforeConcat(c, s, c, t);
    BeforeIsTotal(c, c);
  }

  lemma DatesInOrder(a: string, b: string)
    requires AreDigits(a, 8) && AreDigits(b, 8)
    ensures |DateText(a)| == |DateText(b)| == 10
    ensures Before(DateText(a), DateText(b)) <==> Number(a) < Number(b)
    ensures DateText(a) == DateText(b) <==> Number(a) == Number(b)
  {
    DigitsInOrder(a, b, 8);
    PartsInOrder(a, b, 4, "-");
    hide Number, AreDigits;
    assert a == a[..4] + (a[4..6] + a[6..]) && b == b[..4] + (b[4..6] + b[6..]);
  }

  lemma TimesInOrder(a: string, b: string)
    requires AreDigits(a, 6) && AreDigits(b, 6)
    ensures |TimeText(a)| == |TimeText(b)| == 8
    ensures Before(TimeText(a), TimeText(b)) <==> Number(a) < Number(b)
    ensures TimeText(a) == TimeText(b) <==> Number(a) == Number(b)
  {
    DigitsInOrder(a, b, 6);
    PartsInOrder(a, b, 2, ":");
    hide Number, AreDigits;
    assert a == a[..2] + (a[2..4] + a[4..]) && b == b[..2] + (b[2..4] + b[4..]);
  }

  /** Putting a mark between the parts changes neither order nor equality. */
  lemma PartsInOrder(a: string, b: string, n: nat, mark: string)
    requires |a| == |b| && n + 2 <= |a|
    ensures var x, y := a[..n] + (mark + (a[n..n + 2] + (mark + a[n + 2..]))), b[..n] + (mark + (b[n..n + 2] + (mark + b[n + 2..])));
            (Before(x, y) <==> Before(a, b)) && (x == y <==> a == b)
  {
    var a2, a3, b2, b3 := a[n..n + 2], a[n + 2..], b[n..n + 2], b[n + 2..];
    assert a == a[..n] + (a2 + a3) && b == b[..n] + (b2 + b3);
    BeforeConcat(a[..n], a2 + a3, b[..n], b2 + b3);
    BeforeConcat(a2, a3, b2, b3);
    BeforeConcat(a[..n], mark + (a2 + (mark + a3)), b[..n], mark + (b2 + (mark + b3)));
    SameSeparator(mark, a2 + (mark + a3), b2 + (mark + b3));
    BeforeConcat(a2, mark + a3, b2, mark + b3);
    SameSeparator(mark, a3, b3);
    MarkedApart(a[..n], a2, a3, b[..n], b2, b3, mark);
    hide Before;
  }

  lemma MarkedApart(a1: string, a2: string, a3: string, b1: string, b2: string, b3: string, mark: string)
    requires |a1| == |b1| && |a2| == |b2|
    ensures a1 + (mark + (a2 + (mark + a3))) == b1 + (mark + (b2 + (mark + b3))) <==> a1 + (a2 + a3) == b1 + (b2 + b3)
  {
    SameHead(a1, a2 + a3, b1, b2 + b3);
    SameHead(a2, a3, b2, b3);
    SameHead(a1, mark + (a2 + (mark + a3)), b1, mark + (b2 + (mark + b3)));
    SameHead(mark, a2 + (mark + a3), mark, b2 + (mark + b3));
    SameHead(a2, mark + a3, b2, mark + b3);
    SameHead(mark, a3, mark, b3);
  }

  lemma SameHead(a: string, s: string, b: string, t: string)
    requires |a| == |b|
    ensures a + s == b + t <==> a == b && s == t
  {
    if a + s == b + t {
      assert a == (a + s)[..|a|] && b == (b + t)[..|b|];
      assert s == (a + s)[|a|..] && t == (b + t)[|b|..];
    }
  }

  function Ms(form: Form): nat
    requires form.Millis? ==> AreDigits(form.ms, 3)
  {
    if form.Millis? then Number(form.ms) else 0
  }

  lemma {:induction false} NumberBelow(s: string, n: nat)
    requires AreDigits(s, n) && n <= 3
    ensures Number(s) < [1, 10, 100, 1000][n]
  {
    if n > 0 {
      assert s == s[..n - 1] + [s[n - 1]];
      assert s[n - 1] in s;
      NumberBelow(s[..n - 1], n - 1);
    }
  }

  /** Of the two `T` formats the whole second sorts first, as it should. */
  lemma TailsInOrder(x: Form, y: Form)
    requires (x.Millis? ==> AreDigits(x.ms, 3)) && (y.Millis? ==> AreDigits(y.ms, 3)) && !x.Plain? && !y.Plain?
    ensures Before(Tail(x), Tail(y)) ==> Ms(x) <= Ms(y)
    ensures Ms(x) < Ms(y) ==> Before(Tail(x), Tail(y))
    ensures Tail(x) == Tail(y) ==> Ms(x) == Ms(y)
  {
    if x.Millis? && y.Millis? {
      DigitsInOrder(x.ms, y.ms, 3);
      SameSeparator(".", x.ms + "Z", y.ms + "Z");
      BeforeConcat(x.ms, "Z", y.ms, "Z");
      BeforeIsTotal("Z", "Z");
      SameHead(".", x.ms + "Z", ".", y.ms + "Z");
      SameHead(x.ms, "Z", y.ms, "Z");
    } else if x.Offset? && y.Offset? {
      BeforeIsTotal(Tail(x), Tail(y));
    } else {
      assert Tail(Offset)[0] == '+';
      assert x.Millis? ==> Tail(x)[0] == '.';
      assert y.Millis? ==> Tail(y)[0] == '.';
    }
  }

  /** The text order of two stored instants: date, then format, then time, then what follows the seconds. */
  lemma TextOrder(x: Stamp, y: Stamp)
    requires IsValid(x) && IsValid(y)
    ensures Before(Render(x), Render(y)) <==>
      Number(x.date) < Number(y.date) ||
      (Number(x.date) == Number(y.date) &&
        ((x.form.Plain? && !y.form.Plain?) ||
         (x.form.Plain? == y.form.Plain? &&
           (Number(x.time) < Number(y.time) || (Number(x.time) == Number(y.time) && Before(Tail(x.form), Tail(y.form)))))))
    ensures Render(x) == Render(y) <==>
      Number(x.date) == Number(y.date) && x.form.Plain? == y.form.Plain? && Number(x.time) == Number(y.time) && Tail(x.form) == Tail(y.form)
  {
    var p, q := TimeText(x.time) + Tail(x.form), TimeText(y.time) + Tail(y.form);
    DatesInOrder(x.date, y.date);
    TimesInOrder(x.time, y.time);
    BeforeConcat(TimeText(x.time), Tail(x.form), TimeText(y.time), Tail(y.form));
    SameHead(TimeText(x.time), Tail(x.form), TimeText(y.time), Tail(y.form));
    SeparatorsInOrder(x.form, y.form);
    BeforeConcat(Separator(x.form), p, Separator(y.form), q);
    SameHead(Separator(x.form), p, Separator(y.form), q);
    BeforeConcat(DateText(x.date), Separator(x.form) + p, DateText(y.date), Separator(y.form) + q);
    SameHead(DateText(x.date), Separator(x.form) + p, DateText(y.date), Separator(y.form) + q);
    hide Before, Number, DateText, TimeText, Separator, Tail, IsValid;
  }

  lemma SeparatorsInOrder(x: Form, y: Form)
    ensures |Separator(x)| == |Separator(y)| == 1
    ensures Before(Separator(x), Separator(y)) <==> x.Plain? && !y.Plain?
    ensures Separator(x) == Separator(y) <==> x.Plain? == y.Plain?
  {
    assert " "[0] == ' ' && "T"[0] == 'T';
    BeforeIsTotal(Separator(x), Separator(y));
  }

  /** A day's instant in the space format later than one in a `T` format: the texts stand the other way round. */
  predicate Clashes(x: Stamp, y: Stamp)
    requires IsValid(x) && IsValid(y)
  {
    x.form.Plain? && !y.form.Plain? && InstantOf(x).day == InstantOf(y).day && Sooner(InstantOf(y), InstantOf(x))
  }

  /** Text order belies time order exactly when two stamps clash. */
  lemma TextAgainstTime(x: Stamp, y: Stamp)
    requires IsValid(x) && IsValid(y)
    ensures Before(Render(x), Render(y)) && Sooner(InstantOf(y), InstantOf(x)) <==> Clashes(x, y)
    ensures Render(x) == Render(y) ==> InstantOf(x) == InstantOf(y)
  {
    TextOrder(x, y);
    if x.form.Millis? { NumberBelow(x.form.ms, 3); }
    if y.form.Millis? { NumberBelow(y.form.ms, 3); }
    if !x.form.Plain? && !y.form.Plain? {
      TailsInOrder(x.form, y.form);
    }
    BeforeIsTotal("", "");
    hide Before, Render, Number, AreDigits;
  }

  // ---------------------------------------------------------------- reading a stored text

  function StampOf(text: string): Stamp
    requires |text| >= 19
  {
    Stamp(text[..4] + text[5..7] + text[8..10], text[11..13] + text[14..16] + text[17..19],
          if text[10] == ' ' then Plain else if |text| == 24 && text[19] == '.' then Millis(text[20..23]) else Offset)
  }

  /** The text is one of the three stored formats. */
  predicate IsStored(text: string) {
    |text| >= 19 && IsValid(StampOf(text)) && Render(StampOf(text)) == text
  }

  function StoredInstant(text: string): Instant
    requires IsStored(text)
  {
    InstantOf(StampOf(text))
  }

  lemma DateParts(date: string)
    requires |date| == 8
    ensures var d := DateText(date); |d| == 10 && d[..4] + d[5..7] + d[8..10] == date
  {
    var d := DateText(date);
    assert d[..4] == date[..4] && d[5..7] == date[4..6] && d[8..10] == date[6..];
  }

  lemma TimeParts(time: string)
    requires |time| == 6
    ensures var d := TimeText(time); |d| == 8 && d[..2] + d[3..5] + d[6..8] == time
  {
    var d := TimeText(time);
    assert d[..2] == time[..2] && d[3..5] == time[2..4] && d[6..8] == time[4..];
  }

  lemma Parts(d: string, s: string, h: string, e: string)
    requires |d| == 10 && |s| == 1 && |h| == 8
    ensures var text := d + (s + (h + e));
            && |text| == 19 + |e| && text[10] == s[0]
            && text[..4] == d[..4] && text[5..7] == d[5..7] && text[8..10] == d[8..10]
            && text[11..13] == h[..2] && text[14..16] == h[3..5] && text[17..19] == h[6..8]
            && text[19..] == e
  {
  }

  lemma FormIsReadBack(t: Stamp)
    requires IsValid(t)
    ensures StampOf(Render(t)).form == t.form
  {
    Parts(DateText(t.date), Separator(t.form), TimeText(t.time), Tail(t.form));
    var e := Render(t)[19..];
    if t.form.Millis? {
      assert e == "." + (t.form.ms + "Z");
      assert Render(t)[20..23] == e[1..4] == t.form.ms;
      assert Render(t)[19] == e[0];
    }
  }

  /** A written stamp is read back. */
  lemma StampIsReadBack(t: Stamp)
    requires IsValid(t)
    ensures IsStored(Render(t)) && StampOf(Render(t)) == t
  {
    DateParts(t.date);
    TimeParts(t.time);
    Parts(DateText(t.date), Separator(t.form), TimeText(t.time), Tail(t.form));
    FormIsReadBack(t);
    hide DateText, TimeText, Tail, Separator;
  }
}
