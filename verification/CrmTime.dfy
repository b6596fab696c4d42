/**
 * Timelines and time. A timeline is ordered by the stored text of its messages; when that is
 * the order of the instants, and a run on which it is not.
 */
module CrmTime {
  import opened Wrappers
  import opened Sorting
  import opened Text
  import opened CrmStore
  import opened CrmRuns
  import opened StoredTime

  predicate HasTime(m: Message) { IsStored(At(m)) }

  predicate Earlier(x: Message, y: Message) { HasTime(x) && HasTime(y) && Sooner(StoredInstant(At(x)), StoredInstant(At(y))) }

  /** A message stamped by the database, and an earlier one of that day stamped by a connector. */
  predicate TimesClash(x: Message, y: Message) { HasTime(x) && HasTime(y) && Clashes(StampOf(At(x)), StampOf(At(y))) }

  ghost predicate IsClashFree(s: seq<Message>) { forall x, y | x in s && y in s :: !TimesClash(x, y) }

  lemma OlderAgainstTime(x: Message, y: Message)
    requires HasTime(x) && HasTime(y)
    ensures Earlier(y, x) && !Older(y, x) <==> TimesClash(x, y)
  {
    TextAgainstTime(StampOf(At(x)), StampOf(At(y)));
    BeforeIsTotal(At(x), At(y));
    hide Before, Clashes, Sooner, InstantOf, Render, StampOf, IsValid;
  }

  /** A list in the order of the stored texts is in the order of the instants exactly when no two of its messages clash. */
  lemma TextOrderIsTimeOrder(s: seq<Message>)
    requires InOrder(s, Older) && forall m | m in s :: HasTime(m)
    ensures InOrder(s, Earlier) <==> IsClashFree(s)
  {
    hide Older, Earlier, TimesClash, HasTime;
    if InOrder(s, Earlier) {
      forall x, y | x in s && y in s
        ensures !TimesClash(x, y)
      {
        var i :| 0 <= i < |s| && s[i] == x;
        var j :| 0 <= j < |s| && s[j] == y;
        OlderAgainstTime(x, y);
        NotBoth(x, y);
      }
    }
    if IsClashFree(s) {
      forall i, j | 0 <= i < j < |s|
        ensures !Earlier(s[j], s[i])
      {
        assert s[i] in s && s[j] in s;
        OlderAgainstTime(s[i], s[j]);
      }
    }
  }

  /** Messages that clash are different and stand in text order. */
  lemma NotBoth(x: Message, y: Message)
    ensures TimesClash(x, y) ==> x != y && Older(x, y)
  {
    if TimesClash(x, y) {
      TextAgainstTime(StampOf(At(x)), StampOf(At(y)));
    }
    hide Before, Render, StampOf, IsValid;
  }

  ghost predicate AllTimed(db: Database) { forall m | m in db.messages :: HasTime(m) }

  /** Two messages of accounts behind the identities folded into `id` clash. */
  ghost predicate HasClash(w: World, id: nat) {
    exists x, y :: IsOwn(w, x, id) && IsOwn(w, y, id) && TimesClash(x, y)
  }

  ghost predicate IsOwn(w: World, m: Message, id: nat) {
    m in w.db.messages && m.contactId.Some? && CameFrom(w, m.contactId.value, id)
  }

  /**
   * On every run an identity's timeline is in order of time exactly when, among the messages of
   * all identities folded into it, none stamped by the database is later than one of the same day
   * stamped by a connector.
   */
  lemma TimelineInTimeOrder(ops: seq<Op>, rules: Rules, id: nat)
    requires id in Run(ops, rules).db.contacts && AllTimed(Run(ops, rules).db)
    ensures var w := Run(ops, rules); InOrder(Timeline(w.db, id), Earlier) <==> !HasClash(w, id)
  {
    RunKeepsInv(ops, rules);
    TimelineIsOwn(Run(ops, rules), id);
    OwnInTimeOrder(Run(ops, rules), id, Timeline(Run(ops, rules).db, id));
    hide *;
  }

  lemma TimelineIsOwn(w: World, id: nat)
    requires Inv(w) && id in w.db.contacts
    ensures InOrder(Timeline(w.db, id), Older)
    ensures forall m :: m in Timeline(w.db, id) <==> IsOwn(w, m, id)
  {
    forall m: Message
      ensures m in Timeline(w.db, id) <==> IsOwn(w, m, id)
    {
      TimelineIs(w, id, m);
      hide Inv, Timeline, CameFrom, InOrder;
    }
    OlderIsOrder();
    SortInOrder(Filter(w.db.messages, IsOf(w.db, id)), Older);
  }

  lemma OwnInTimeOrder(w: World, id: nat, t: seq<Message>)
    requires AllTimed(w.db) && InOrder(t, Older) && forall m :: m in t <==> IsOwn(w, m, id)
    ensures InOrder(t, Earlier) <==> !HasClash(w, id)
  {
    hide TimesClash, HasTime, CameFrom, InOrder;
    TextOrderIsTimeOrder(t);
  }

  /** A merge of two timelines comes out in order of time exactly when no two messages of the two clash. */
  lemma MergeInTimeOrder(db: Database, survivor: nat, source: nat, mode: MergeMode, now: int, rules: Rules)
    requires MergeOutcome(db, survivor, source).Ok? && AllTimed(db)
    ensures InOrder(Timeline(Merged(db, survivor, source, mode, now, rules), survivor), Earlier)
       <==> IsClashFree(Timeline(db, survivor) + Timeline(db, source))
  {
    var joined := Timeline(Merged(db, survivor, source, mode, now, rules), survivor);
    MergeJoinsTimelines(db, survivor, source, mode, now, rules);
    TimelineFromTable(db, survivor);
    TimelineFromTable(db, source);
    JoinedInTimeOrder(joined, Timeline(db, survivor), Timeline(db, source));
    hide *;
  }

  lemma JoinedInTimeOrder(joined: seq<Message>, a: seq<Message>, b: seq<Message>)
    requires multiset(joined) == multiset(a) + multiset(b) && InOrder(joined, Older)
    requires forall m | m in a + b :: HasTime(m)
    ensures InOrder(joined, Earlier) <==> IsClashFree(a + b)
  {
    hide Older, Earlier, HasTime, TimesClash;
    forall m: Message
      ensures m in joined <==> m in a + b
    {
      assert m in joined <==> m in multiset(joined);
      assert m in a + b <==> m in multiset(a) + multiset(b);
    }
    TextOrderIsTimeOrder(joined);
  }

  lemma TimelineFromTable(db: Database, id: nat)
    requires AllTimed(db)
    ensures forall m | m in Timeline(db, id) :: HasTime(m)
  {
    var part := Filter(db.messages, IsOf(db, id));
    SortMembers(part, Older);
    FilterMembers(db.messages, IsOf(db, id));
    hide Filter, Sort, Older, HasTime;
  }

  // ---------------------------------------------------------------- a run out of order

  const NOON_STAMPED := "2024-01-01 11:00:00"
  const TEN_SENT := "2024-01-01T10:00:00.000Z"

  const PERSON := Social(0, "x", "p", None, None, None, None)
  const UNSENT := Message(0, "x", "m0", Some(0), false, "", None, NOON_STAMPED)
  const SENT := Message(1, "x", "m1", Some(0), false, "", Some(TEN_SENT), NOON_STAMPED)
  const EXAMPLE := [IngestSocial(PERSON), Sync(0), IngestMessage(UNSENT), IngestMessage(SENT)]

  const NOON := Stamp("20240101", "110000", Plain)
  const TEN := Stamp("20240101", "100000", Millis("000"))

  lemma ExampleDate()
    ensures DateText("20240101") == "2024-01-01"
  {
    var d := "20240101";
    assert d[..4] == "2024" && d[4..6] == "01" && d[6..] == "01";
  }

  lemma ExampleTime(time: string, shown: string)
    requires (time == "110000" && shown == "11:00:00") || (time == "100000" && shown == "10:00:00")
    ensures TimeText(time) == shown
  {
    assert time[..2] == shown[..2] && time[2..4] == "00" && time[4..] == "00";
  }

  lemma NoonText()
    ensures IsValid(NOON) && Render(NOON) == NOON_STAMPED
  {
    ExampleDate();
    ExampleTime("110000", "11:00:00");
    hide DateText, TimeText;
    assert NOON_STAMPED == "2024-01-01" + (" " + ("11:00:00" + ""));
  }

  lemma TenText()
    ensures IsValid(TEN) && Render(TEN) == TEN_SENT
  {
    ExampleDate();
    ExampleTime("100000", "10:00:00");
    hide DateText, TimeText;
    assert TEN_SENT == "2024-01-01" + ("T" + ("10:00:00" + ("." + ("000" + "Z"))));
  }

  lemma ExampleTimes()
    ensures HasTime(UNSENT) && HasTime(SENT) && TimesClash(UNSENT, SENT)
  {
    NoonText();
    TenText();
    StampIsReadBack(NOON);
    StampIsReadBack(TEN);
    ExampleNumbers();
    hide IsStored, StampOf, Render, IsValid;
  }

  lemma ExampleNumbers()
    requires IsValid(NOON) && IsValid(TEN)
    ensures Clashes(NOON, TEN)
  {
    DigitsInOrder(NOON.time, TEN.time, 6);
    NumberBelow("000", 3);
    assert "110000"[0] == "100000"[0] && "110000"[1..][0] == '1' && "100000"[1..][0] == '0';
  }

  lemma RunSnoc(ops: seq<Op>, op: Op, rules: Rules)
    ensures Run(ops + [op], rules) == Next(Run(ops, rules), op, rules)
  {
    assert (ops + [op])[..|ops|] == ops;
  }

  lemma ExampleIdentity(rules: Rules)
    ensures var db := Run(EXAMPLE[..2], rules).db;
            db.messages == [] && db.nextMessage == 0 && db.links == map[0 := 0] && 0 in db.contacts
  {
    var w := World(EMPTY.(socials := [PERSON], nextSocial := 1), map[], []);
    assert EXAMPLE[..2] == [] + [IngestSocial(PERSON)] + [Sync(0)];
    RunSnoc([], IngestSocial(PERSON), rules);
    RunSnoc([] + [IngestSocial(PERSON)], Sync(0), rules);
    assert Run([] + [IngestSocial(PERSON)], rules) == w;
    FilterSnoc([], PERSON, IsUnlinked(w.db));
    assert UnlinkedSocials(w.db) == [] + [PERSON];
    CreateAllSnoc(w, [], PERSON, 0, rules);
  }

  lemma ExampleMessages(rules: Rules)
    ensures var db := Run(EXAMPLE, rules).db;
            db.messages == [UNSENT, SENT] && db.links == map[0 := 0] && 0 in db.contacts
  {
    ExampleIdentity(rules);
    assert EXAMPLE == EXAMPLE[..2] + [IngestMessage(UNSENT)] + [IngestMessage(SENT)];
    RunSnoc(EXAMPLE[..2], IngestMessage(UNSENT), rules);
    RunSnoc(EXAMPLE[..2] + [IngestMessage(UNSENT)], IngestMessage(SENT), rules);
    IngestTwo(Run(EXAMPLE[..2], rules).db);
    hide Run, UpsertMessage;
  }

  lemma IngestTwo(db: Database)
    requires db.messages == [] && db.nextMessage == 0
    ensures var after := UpsertMessage(UpsertMessage(db, UNSENT), SENT);
            after.messages == [UNSENT, SENT] && after.links == db.links && after.contacts == db.contacts
  {
    assert UNSENT.platformMessageId != SENT.platformMessageId by {
      assert "m0"[1] != "m1"[1];
    }
  }

  lemma SortTwo(x: Message, y: Message)
    requires Older(x, y)
    ensures Sort([x, y], Older) == [x, y]
  {
    assert !Older(y, x) by { OlderIsOrder(); }
    SortSnoc([x], y, Older);
    SortSnoc([], x, Older);
    assert [x] + [y] == [x, y] && [] + [x] == [x];
    hide Older;
  }

  lemma TimelineOfTwo(db: Database, id: nat, x: Message, y: Message)
    requires db.messages == [x, y] && IsOf(db, id)(x) && IsOf(db, id)(y) && Older(x, y)
    ensures Timeline(db, id) == [x, y]
  {
    SortTwo(x, y);
    FilterPrefix(db.messages, IsOf(db, id), 2);
    assert db.messages[..2] == db.messages;
    hide Older, Sort, Filter, IsOf;
  }

  lemma ClashOutOfOrder(db: Database, id: nat, x: Message, y: Message)
    requires db.messages == [x, y] && IsOf(db, id)(x) && IsOf(db, id)(y) && TimesClash(x, y)
    ensures Timeline(db, id) == [x, y] && Earlier(y, x) && !InOrder(Timeline(db, id), Earlier)
  {
    NotBoth(x, y);
    TimelineOfTwo(db, id, x, y);
    hide Timeline, Older;
    assert Earlier([x, y][1], [x, y][0]);
  }

  /** A run whose timeline shows the message of 11:00 before that of 10:00. */
  lemma TimelineOutOfTimeOrder(rules: Rules)
    ensures var db := Run(EXAMPLE, rules).db;
            0 in db.contacts && Timeline(db, 0) == [UNSENT, SENT] && Earlier(SENT, UNSENT) && !InOrder(Timeline(db, 0), Earlier)
  {
    ExampleMessages(rules);
    ExampleTimes();
    ClashOutOfOrder(Run(EXAMPLE, rules).db, 0, UNSENT, SENT);
    hide Run, Timeline, Earlier, TimesClash, HasTime, InOrder, Older;
  }
}
