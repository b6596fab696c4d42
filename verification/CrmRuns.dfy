/**
 * Every run of ingest, sync, merge and delete: where links point, and what an identity's
 * timeline and follower count are made of.
 */
module CrmRuns {
  import opened Wrappers
  import opened Sorting
  import opened CrmStore

  /** What a new identity started from. */
  datatype Origin = Origin(social: nat, followers: nat)

  datatype Fold = Fold(survivor: nat, source: nat)

  /** The database with the history of its identities: where each came from, and every merge made. */
  datatype World = World(db: Database, origins: map<nat, Origin>, folds: seq<Fold>)

  const START := World(EMPTY, map[], [])

  datatype Op =
    | IngestSocial(social: Social)
    | IngestMessage(message: Message)
    | Sync(now: int)
    | Merge(survivor: nat, source: nat, mode: MergeMode, now: int)
    | Delete(id: nat, cascade: bool)

  /** The identity an identity ended up in after these merges. */
  function Root(folds: seq<Fold>, id: nat): nat {
    if folds == [] then id
    else
      var last, r := folds[|folds| - 1], Root(folds[..|folds| - 1], id);
      if r == last.source then last.survivor else r
  }

  function CreateW(w: World, s: Social, now: int, rules: Rules): World {
    w.(db := CreateIdentity(w.db, s, now, rules),
       origins := w.origins[w.db.nextContact := Origin(s.id, rules.discoverFollowers(s.metadata))])
  }

  function CreateAllW(w: World, socials: seq<Social>, now: int, rules: Rules): (r: World)
    ensures r.db == CreateAll(w.db, socials, now, rules)
  {
    if socials == [] then w
    else CreateW(CreateAllW(w, socials[..|socials| - 1], now, rules), socials[|socials| - 1], now, rules)
  }

  /** A refused merge or delete changes nothing. */
  function Next(w: World, op: Op, rules: Rules): World {
    match op
    case IngestSocial(s) => w.(db := UpsertSocial(w.db, s))
    case IngestMessage(m) => w.(db := UpsertMessage(w.db, m))
    case Sync(now) => CreateAllW(w, UnlinkedSocials(w.db), now, rules)
    case Merge(survivor, source, mode, now) =>
      if MergeOutcome(w.db, survivor, source).Ok? then
        w.(db := Merged(w.db, survivor, source, mode, now, rules), folds := w.folds + [Fold(survivor, source)])
      else w
    case Delete(id, cascade) =>
      if DeleteOutcome(w.db, id, cascade).Ok? then w.(db := Deleted(w.db, id, cascade)) else w
  }

  function Run(ops: seq<Op>, rules: Rules): World {
    if ops == [] then START else Next(Run(ops[..|ops| - 1], rules), ops[|ops| - 1], rules)
  }

  // ---------------------------------------------------------------- the invariant

  ghost predicate IsMember(w: World, id: nat, root: nat) { id in w.origins && Root(w.folds, id) == root }

  /** The account `social` is the origin of an identity folded into `root`. */
  ghost predicate CameFrom(w: World, social: nat, root: nat) {
    exists id :: IsMember(w, id, root) && w.origins[id].social == social
  }

  ghost predicate IsKnown(db: Database, social: nat) { exists s :: s in db.socials && s.id == social }

  /** Each linked account exists and belongs to one existing identity. */
  ghost predicate LinksExist(db: Database) {
    forall s | s in db.links :: db.links[s] in db.contacts && IsKnown(db, s)
  }

  ghost predicate IsLinked(db: Database, social: nat, id: nat) { social in db.links && db.links[social] == id }

  /** An account is linked to an identity exactly when it is the origin of an identity folded into it. */
  ghost predicate LinksFollowFolds(w: World) {
    forall s, c | c in w.db.contacts :: IsLinked(w.db, s, c) <==> CameFrom(w, s, c)
  }

  ghost predicate IsMaxFollowers(w: World, c: nat) {
    && c in w.db.contacts
    && (exists id :: IsMember(w, id, c) && w.origins[id].followers == w.db.contacts[c].followers)
    && forall id | IsMember(w, id, c) :: w.origins[id].followers <= w.db.contacts[c].followers
  }

  ghost predicate FollowersAreMax(w: World) { forall c | c in w.db.contacts :: IsMaxFollowers(w, c) }

  /** Live identities were never folded away, and only identities created so far have a history. */
  ghost predicate HistoryFits(w: World) {
    && (forall c | c in w.db.contacts :: IsMember(w, c, c))
    && (forall id | id in w.origins :: id < w.db.nextContact)
    && forall f | f in w.folds :: f.survivor < w.db.nextContact && f.source < w.db.nextContact
  }

  ghost predicate Inv(w: World) {
    w.db.Valid() && LinksExist(w.db) && HistoryFits(w) && LinksFollowFolds(w) && FollowersAreMax(w)
  }

  // ---------------------------------------------------------------- roots

  lemma {:induction false} RootOfUnused(folds: seq<Fold>, id: nat)
    requires forall f | f in folds :: f.source != id
    ensures Root(folds, id) == id
    decreases folds
  {
    if folds != [] {
      RootOfUnused(folds[..|folds| - 1], id);
      assert folds[|folds| - 1] in folds;
    }
  }

  lemma {:induction false} RootInRange(folds: seq<Fold>, id: nat, bound: nat)
    requires id < bound && forall f | f in folds :: f.survivor < bound
    ensures Root(folds, id) < bound
    decreases folds
  {
    if folds != [] {
      RootInRange(folds[..|folds| - 1], id, bound);
      assert folds[|folds| - 1] in folds;
    }
  }

  lemma RootSnoc(folds: seq<Fold>, f: Fold, id: nat)
    ensures Root(folds + [f], id) == if Root(folds, id) == f.source then f.survivor else Root(folds, id)
  {
    assert (folds + [f])[..|folds|] == folds;
  }

  // ---------------------------------------------------------------- one new identity

  /** Membership after a creation: the new identity is its own only member. */
  lemma CreateMembers(w: World, s: Social, now: int, rules: Rules)
    requires HistoryFits(w)
    ensures var w' := CreateW(w, s, now, rules);
            forall id, c :: IsMember(w', id, c) <==> IsMember(w, id, c) || (id == c == w.db.nextContact)
  {
    RootOfUnused(w.folds, w.db.nextContact);
  }

  lemma CreateKeepsInv(w: World, s: Social, now: int, rules: Rules)
    requires Inv(w) && s in w.db.socials && s.id !in w.db.links
    ensures Inv(CreateW(w, s, now, rules))
  {
    CreateKeepsTables(w, s, now, rules);
    CreateKeepsLinks(w, s, now, rules);
    CreateKeepsFollowers(w, s, now, rules);
    hide LinksFollowFolds, FollowersAreMax, LinksExist, HistoryFits, CreateW;
  }

  lemma CreateKeepsTables(w: World, s: Social, now: int, rules: Rules)
    requires w.db.Valid() && LinksExist(w.db) && HistoryFits(w) && s in w.db.socials
    ensures var w' := CreateW(w, s, now, rules); w'.db.Valid() && LinksExist(w'.db) && HistoryFits(w')
  {
    var w' := CreateW(w, s, now, rules);
    CreateMembers(w, s, now, rules);
    hide Root;
    forall c | c in w'.db.contacts
      ensures IsMember(w', c, c)
    {
      assert c == w.db.nextContact || IsMember(w, c, c);
    }
    assert IsKnown(w'.db, s.id);
    forall x | x in w.db.links
      ensures IsKnown(w'.db, x)
    {
      assert IsKnown(w.db, x);
    }
  }

  lemma CreateKeepsLinks(w: World, s: Social, now: int, rules: Rules)
    requires Inv(w) && s.id !in w.db.links
    ensures LinksFollowFolds(CreateW(w, s, now, rules))
  {
    var w', n := CreateW(w, s, now, rules), w.db.nextContact;
    CreateMembers(w, s, now, rules);
    forall x, c | c in w'.db.contacts
      ensures IsLinked(w'.db, x, c) <==> CameFrom(w', x, c)
    {
      if c == n {
        assert IsMember(w', n, n) && w'.origins[n].social == s.id;
        forall id | IsMember(w', id, n)
          ensures id == n
        {
          if IsMember(w, id, n) {
            RootInRange(w.folds, id, n);
          }
        }
      } else {
        assert c in w.db.contacts;
        if CameFrom(w, x, c) {
          var id :| IsMember(w, id, c) && w.origins[id].social == x;
          assert IsMember(w', id, c) && w'.origins[id].social == x;
        }
        if CameFrom(w', x, c) {
          var id :| IsMember(w', id, c) && w'.origins[id].social == x;
          assert IsMember(w, id, c);
        }
      }
    }
  }

  lemma CreateKeepsFollowers(w: World, s: Social, now: int, rules: Rules)
    requires Inv(w)
    ensures FollowersAreMax(CreateW(w, s, now, rules))
  {
    var w', n := CreateW(w, s, now, rules), w.db.nextContact;
    CreateMembers(w, s, now, rules);
    forall c | c in w'.db.contacts
      ensures IsMaxFollowers(w', c)
    {
      if c == n {
        assert IsMember(w', n, n);
        forall id | IsMember(w', id, n)
          ensures id == n
        {
          if IsMember(w, id, n) {
            RootInRange(w.folds, id, n);
          }
        }
      } else {
        assert IsMaxFollowers(w, c);
        var id :| IsMember(w, id, c) && w.origins[id].followers == w.db.contacts[c].followers;
        assert IsMember(w', id, c);
      }
    }
  }

  ghost predicate ListsId(socials: seq<Social>, id: nat) { exists s :: s in socials && s.id == id }

  /** Distinct known accounts without a link. */
  ghost predicate AreUnlinked(db: Database, socials: seq<Social>) {
    && (forall s | s in socials :: s in db.socials && s.id !in db.links)
    && forall i, j | 0 <= i < j < |socials| :: socials[i].id != socials[j].id
  }

  lemma LastUnlinked(db: Database, socials: seq<Social>)
    requires AreUnlinked(db, socials) && socials != []
    ensures var init, last := socials[..|socials| - 1], socials[|socials| - 1];
            && socials == init + [last] && AreUnlinked(db, init) && last in db.socials && last.id !in db.links
            && !ListsId(init, last.id) && forall x :: ListsId(socials, x) <==> ListsId(init, x) || x == last.id
  {
    var init, last := socials[..|socials| - 1], socials[|socials| - 1];
    assert socials == init + [last];
    assert last in socials;
    forall x
      ensures ListsId(socials, x) <==> ListsId(init, x) || x == last.id
    {
      assert forall s :: s in socials <==> s in init || s == last;
    }
  }

  lemma {:induction false} CreateAllKeepsInv(w: World, socials: seq<Social>, now: int, rules: Rules)
    requires Inv(w) && AreUnlinked(w.db, socials)
    ensures var w' := CreateAllW(w, socials, now, rules);
            && Inv(w') && w'.db.socials == w.db.socials
            && forall x :: x in w'.db.links <==> x in w.db.links || ListsId(socials, x)
    decreases socials
  {
    if socials == [] {
      assert forall x :: !ListsId(socials, x);
    } else {
      hide *;
      var init, last := socials[..|socials| - 1], socials[|socials| - 1];
      LastUnlinked(w.db, socials);
      CreateAllKeepsInv(w, init, now, rules);
      var v := CreateAllW(w, init, now, rules);
      CreateAllSnoc(w, init, last, now, rules);
      CreateLinks(v, last, now, rules);
      CreateKeepsInv(v, last, now, rules);
    }
  }

  lemma CreateAllSnoc(w: World, socials: seq<Social>, s: Social, now: int, rules: Rules)
    ensures CreateAllW(w, socials + [s], now, rules) == CreateW(CreateAllW(w, socials, now, rules), s, now, rules)
  {
    assert (socials + [s])[..|socials|] == socials;
  }

  lemma CreateLinks(w: World, s: Social, now: int, rules: Rules)
    ensures var w' := CreateW(w, s, now, rules);
            w'.db.socials == w.db.socials && forall x :: x in w'.db.links <==> x in w.db.links || x == s.id
  {
  }

  predicate SocialUpTo(x: Social, y: Social) { x.id <= y.id }

  predicate MessageUpTo(x: Message, y: Message) { x.id <= y.id }

  lemma SocialsKeepIds(s: seq<Social>, keep: Social -> bool)
    requires SocialsAscend(s)
    ensures SocialsAscend(Filter(s, keep))
  {
    FilterInOrder(s, SocialUpTo, keep);
    var f := Filter(s, keep);
    assert forall i, j | 0 <= i < j < |f| :: !SocialUpTo(f[j], f[i]);
  }

  lemma MessagesKeepIds(s: seq<Message>, keep: Message -> bool)
    requires MessagesAscend(s)
    ensures MessagesAscend(Filter(s, keep))
  {
    FilterInOrder(s, MessageUpTo, keep);
    var f := Filter(s, keep);
    assert forall i, j | 0 <= i < j < |f| :: !MessageUpTo(f[j], f[i]);
  }

  /** After a sync every account is linked, the links there were stand, and a second sync does nothing. */
  lemma SyncLinksAll(w: World, now: int, rules: Rules, later: int)
    requires Inv(w)
    ensures var w' := Next(w, Sync(now), rules);
            && Inv(w') && w'.db.socials == w.db.socials
            && (forall s | s in w'.db.socials :: s.id in w'.db.links)
            && Next(w', Sync(later), rules) == w'
  {
    var unlinked, w' := UnlinkedSocials(w.db), Next(w, Sync(now), rules);
    UnlinkedAre(w.db);
    CreateAllKeepsInv(w, unlinked, now, rules);
    hide Inv, CreateAllW, AreUnlinked, UnlinkedSocials;
    forall s | s in w'.db.socials
      ensures s.id in w'.db.links
    {
      assert s.id in w.db.links || s in unlinked;
      assert s in unlinked ==> ListsId(unlinked, s.id);
    }
    NothingUnlinked(w'.db);
    SyncOfNothing(w', later, rules);
  }

  lemma UnlinkedAre(db: Database)
    requires db.Valid()
    ensures var unlinked := UnlinkedSocials(db);
            AreUnlinked(db, unlinked) && forall s | s in db.socials && s.id !in db.links :: s in unlinked
  {
    FilterMembers(db.socials, IsUnlinked(db));
    SocialsKeepIds(db.socials, IsUnlinked(db));
    hide Filter;
    assert SocialsAscend(UnlinkedSocials(db));
  }

  lemma NothingUnlinked(db: Database)
    requires forall s | s in db.socials :: s.id in db.links
    ensures UnlinkedSocials(db) == []
  {
    FilterNone(db.socials, IsUnlinked(db));
  }

  lemma SyncOfNothing(w: World, now: int, rules: Rules)
    requires UnlinkedSocials(w.db) == []
    ensures Next(w, Sync(now), rules) == w
  {
  }

  // ---------------------------------------------------------------- merge

  lemma MergeMembers(w: World, survivor: nat, source: nat)
    ensures var w' := w.(folds := w.folds + [Fold(survivor, source)]);
            forall id, c :: IsMember(w', id, c)
              <==> (c != source && IsMember(w, id, c)) || (c == survivor && IsMember(w, id, source))
  {
    forall id: nat
      ensures Root(w.folds + [Fold(survivor, source)], id) == if Root(w.folds, id) == source then survivor else Root(w.folds, id)
    {
      RootSnoc(w.folds, Fold(survivor, source), id);
    }
  }

  lemma MergedLinks(db: Database, survivor: nat, source: nat, mode: MergeMode, now: int, rules: Rules)
    requires MergeOutcome(db, survivor, source).Ok?
    ensures var after := Merged(db, survivor, source, mode, now, rules);
            && after.contacts.Keys == db.contacts.Keys - {source}
            && forall x, c | c != source :: IsLinked(after, x, c) <==> IsLinked(db, x, c) || (c == survivor && IsLinked(db, x, source))
  {
  }

  lemma MergeKeepsLinks(w: World, survivor: nat, source: nat, mode: MergeMode, now: int, rules: Rules)
    requires LinksFollowFolds(w) && MergeOutcome(w.db, survivor, source).Ok?
    ensures LinksFollowFolds(Next(w, Merge(survivor, source, mode, now), rules))
  {
    var w' := Next(w, Merge(survivor, source, mode, now), rules);
    MergedLinks(w.db, survivor, source, mode, now, rules);
    assert w'.origins == w.origins && w'.folds == w.folds + [Fold(survivor, source)];
    assert w'.db == Merged(w.db, survivor, source, mode, now, rules);
    hide Next, Merged, CameFrom;
    forall x, c | c in w'.db.contacts
      ensures IsLinked(w'.db, x, c) <==> CameFrom(w', x, c)
    {
      assert c in w'.db.contacts.Keys && c in w.db.contacts && c != source;
      assert IsLinked(w.db, x, c) <==> CameFrom(w, x, c);
      assert IsLinked(w.db, x, source) <==> CameFrom(w, x, source);
      MergedCameFrom(w, survivor, source, x, c);
      SameHistory(w.(folds := w'.folds), w', x, c);
    }
  }

  lemma MergedCameFrom(w: World, survivor: nat, source: nat, x: nat, c: nat)
    requires c != source
    ensures var w' := w.(folds := w.folds + [Fold(survivor, source)]);
            CameFrom(w', x, c) <==> CameFrom(w, x, c) || (c == survivor && CameFrom(w, x, source))
  {
    var w' := w.(folds := w.folds + [Fold(survivor, source)]);
    MergeMembers(w, survivor, source);
    if CameFrom(w, x, c) {
      var id :| IsMember(w, id, c) && w.origins[id].social == x;
      assert IsMember(w', id, c);
    }
    if c == survivor && CameFrom(w, x, source) {
      var id :| IsMember(w, id, source) && w.origins[id].social == x;
      assert IsMember(w', id, c);
    }
    if CameFrom(w', x, c) {
      var id :| IsMember(w', id, c) && w'.origins[id].social == x;
      assert IsMember(w, id, c) || IsMember(w, id, source);
    }
  }

  lemma MergeKeepsFollowers(w: World, survivor: nat, source: nat, mode: MergeMode, now: int, rules: Rules)
    requires Inv(w) && MergeOutcome(w.db, survivor, source).Ok?
    ensures FollowersAreMax(Next(w, Merge(survivor, source, mode, now), rules))
  {
    var w' := Next(w, Merge(survivor, source, mode, now), rules);
    MergeMembers(w, survivor, source);
    forall c | c in w'.db.contacts
      ensures IsMaxFollowers(w', c)
    {
      assert IsMaxFollowers(w, c) && IsMaxFollowers(w, source);
      var id :| IsMember(w, id, c) && w.origins[id].followers == w.db.contacts[c].followers;
      assert IsMember(w', id, c);
      if c == survivor {
        var other :| IsMember(w, other, source) && w.origins[other].followers == w.db.contacts[source].followers;
        assert IsMember(w', other, c);
      }
    }
  }

  lemma MergeKeepsInv(w: World, survivor: nat, source: nat, mode: MergeMode, now: int, rules: Rules)
    requires Inv(w)
    ensures Inv(Next(w, Merge(survivor, source, mode, now), rules))
  {
    if MergeOutcome(w.db, survivor, source).Ok? {
      var w' := Next(w, Merge(survivor, source, mode, now), rules);
      MergeKeepsLinks(w, survivor, source, mode, now, rules);
      MergeKeepsFollowers(w, survivor, source, mode, now, rules);
      MergeKeepsTables(w, survivor, source, mode, now, rules);
      hide LinksFollowFolds, FollowersAreMax, LinksExist, HistoryFits;
    }
  }

  lemma MergeKeepsTables(w: World, survivor: nat, source: nat, mode: MergeMode, now: int, rules: Rules)
    requires w.db.Valid() && LinksExist(w.db) && HistoryFits(w) && MergeOutcome(w.db, survivor, source).Ok?
    ensures var w' := Next(w, Merge(survivor, source, mode, now), rules); w'.db.Valid() && LinksExist(w'.db) && HistoryFits(w')
  {
    var w' := Next(w, Merge(survivor, source, mode, now), rules);
    MergeMembers(w, survivor, source);
    hide Root;
    assert w'.db.contacts.Keys == w.db.contacts.Keys - {source};
    forall c | c in w'.db.contacts
      ensures IsMember(w', c, c)
    {
      assert IsMember(w, c, c);
    }
    forall s | s in w'.db.links
      ensures w'.db.links[s] in w'.db.contacts && IsKnown(w'.db, s)
    {
      assert IsKnown(w.db, s);
    }
  }

  // ---------------------------------------------------------------- delete and ingest

  lemma DeleteKeepsInv(w: World, id: nat, cascade: bool, rules: Rules)
    requires Inv(w)
    ensures Inv(Next(w, Delete(id, cascade), rules))
  {
    if DeleteOutcome(w.db, id, cascade).Ok? {
      var w' := Next(w, Delete(id, cascade), rules);
      DeleteKeepsTables(w, id, cascade);
      hide LinksExist, HistoryFits, Filter;
      forall x, c | c in w'.db.contacts
        ensures IsLinked(w'.db, x, c) <==> CameFrom(w', x, c)
      {
        assert IsLinked(w.db, x, c) <==> CameFrom(w, x, c);
        SameHistory(w, w', x, c);
      }
      DeleteKeepsFollowers(w, w');
    }
  }

  lemma DeleteKeepsFollowers(w: World, w': World)
    requires w.origins == w'.origins && w.folds == w'.folds && FollowersAreMax(w)
    requires forall c | c in w'.db.contacts :: c in w.db.contacts && w'.db.contacts[c] == w.db.contacts[c]
    ensures FollowersAreMax(w')
  {
    forall c | c in w'.db.contacts
      ensures IsMaxFollowers(w', c)
    {
      SameMembers(w, w', c);
    }
  }

  lemma DeleteKeepsTables(w: World, id: nat, cascade: bool)
    requires w.db.Valid() && LinksExist(w.db) && HistoryFits(w)
    ensures var w' := w.(db := Deleted(w.db, id, cascade)); w'.db.Valid() && LinksExist(w'.db) && HistoryFits(w')
  {
    var w' := w.(db := Deleted(w.db, id, cascade));
    MessagesKeepIds(w.db.messages, IsKept(w.db, id));
    FilterMembers(w.db.messages, IsKept(w.db, id));
    hide Filter, IsKept, Root, MessagesAscend, SocialsAscend;
    forall c | c in w'.db.contacts
      ensures IsMember(w', c, c)
    {
      assert IsMember(w, c, c);
    }
    forall s | s in w'.db.links
      ensures IsKnown(w'.db, s)
    {
      assert IsKnown(w.db, s);
    }
  }

  lemma SameHistory(w: World, w': World, x: nat, c: nat)
    requires w.origins == w'.origins && w.folds == w'.folds
    ensures CameFrom(w', x, c) <==> CameFrom(w, x, c)
  {
    if CameFrom(w, x, c) {
      var id :| IsMember(w, id, c) && w.origins[id].social == x;
      assert IsMember(w', id, c);
    }
    if CameFrom(w', x, c) {
      var id :| IsMember(w', id, c) && w'.origins[id].social == x;
      assert IsMember(w, id, c);
    }
  }

  lemma SameMembers(w: World, w': World, c: nat)
    requires w.origins == w'.origins && w.folds == w'.folds && FollowersAreMax(w)
    requires c in w.db.contacts && c in w'.db.contacts && w'.db.contacts[c] == w.db.contacts[c]
    ensures IsMaxFollowers(w', c)
  {
    assert IsMaxFollowers(w, c);
    var id :| IsMember(w, id, c) && w.origins[id].followers == w.db.contacts[c].followers;
    assert IsMember(w', id, c);
    forall other | IsMember(w', other, c)
      ensures w'.origins[other].followers <= w'.db.contacts[c].followers
    {
      assert IsMember(w, other, c);
    }
  }

  /** Ingest touches neither links nor identities. */
  lemma IngestKeepsInv(w: World, db: Database)
    requires Inv(w) && db.Valid()
    requires db.contacts == w.db.contacts && db.links == w.db.links && db.nextContact == w.db.nextContact
    requires forall s | IsKnown(w.db, s) :: IsKnown(db, s)
    ensures Inv(w.(db := db))
  {
    var w' := w.(db := db);
    forall x, c | c in w'.db.contacts
      ensures IsLinked(w'.db, x, c) <==> CameFrom(w', x, c)
    {
      assert IsLinked(w.db, x, c) <==> CameFrom(w, x, c);
      SameHistory(w, w', x, c);
    }
    forall c | c in w'.db.contacts
      ensures IsMaxFollowers(w', c) && IsMember(w', c, c)
    {
      SameMembers(w, w', c);
      assert IsMember(w, c, c);
    }
  }

  lemma IngestSocialKeepsInv(w: World, s: Social)
    requires Inv(w)
    ensures Inv(w.(db := UpsertSocial(w.db, s)))
  {
    var db := UpsertSocial(w.db, s);
    assert db.Valid();
    forall x | IsKnown(w.db, x)
      ensures IsKnown(db, x)
    {
      var i :| 0 <= i < |w.db.socials| && w.db.socials[i].id == x;
      assert db.socials[i].id == x && db.socials[i] in db.socials;
    }
    hide UpsertSocial;
    assert db.contacts == w.db.contacts && db.links == w.db.links && db.nextContact == w.db.nextContact by { UpsertSocialFrame(w.db, s); }
    IngestKeepsInv(w, db);
  }

  lemma UpsertSocialFrame(db: Database, s: Social)
    ensures var after := UpsertSocial(db, s);
            after.contacts == db.contacts && after.links == db.links && after.nextContact == db.nextContact
  {
  }

  lemma IngestMessageKeepsInv(w: World, m: Message)
    requires Inv(w)
    ensures Inv(w.(db := UpsertMessage(w.db, m)))
  {
    var db := UpsertMessage(w.db, m);
    assert db.Valid();
    assert db.contacts == w.db.contacts && db.links == w.db.links && db.nextContact == w.db.nextContact && db.socials == w.db.socials;
    IngestKeepsInv(w, db);
  }

  lemma NextKeepsInv(w: World, op: Op, rules: Rules)
    requires Inv(w)
    ensures Inv(Next(w, op, rules))
  {
    hide Inv;
    match op
    case IngestSocial(s) => IngestSocialKeepsInv(w, s);
    case IngestMessage(m) => IngestMessageKeepsInv(w, m);
    case Sync(now) => SyncLinksAll(w, now, rules, now);
    case Merge(survivor, source, mode, now) => MergeKeepsInv(w, survivor, source, mode, now, rules);
    case Delete(id, cascade) => DeleteKeepsInv(w, id, cascade, rules);
  }

  lemma {:induction false} RunKeepsInv(ops: seq<Op>, rules: Rules)
    ensures Inv(Run(ops, rules))
    decreases ops
  {
    if ops != [] {
      RunKeepsInv(ops[..|ops| - 1], rules);
      NextKeepsInv(Run(ops[..|ops| - 1], rules), ops[|ops| - 1], rules);
    }
  }

  // ---------------------------------------------------------------- timelines

  /** On every run each linked account belongs to exactly one identity, and that one exists. */
  lemma EveryLinkIsLive(ops: seq<Op>, rules: Rules, social: nat)
    ensures var db := Run(ops, rules).db;
            social in db.links ==> db.links[social] in db.contacts && IsKnown(db, social)
  {
    RunKeepsInv(ops, rules);
  }

  /**
   * On every run an identity's timeline is exactly the messages of the accounts behind all
   * identities ever folded into it, once each, in the order of their stored times.
   */
  lemma TimelineIsUnion(ops: seq<Op>, rules: Rules, id: nat, m: Message)
    requires id in Run(ops, rules).db.contacts
    ensures var w := Run(ops, rules);
            && (m in Timeline(w.db, id) <==> m in w.db.messages && m.contactId.Some? && CameFrom(w, m.contactId.value, id))
            && multiset(Timeline(w.db, id))[m] <= 1
            && InOrder(Timeline(w.db, id), Older)
  {
    RunKeepsInv(ops, rules);
    TimelineIs(Run(ops, rules), id, m);
  }

  lemma TimelineIs(w: World, id: nat, m: Message)
    requires Inv(w) && id in w.db.contacts
    ensures m in Timeline(w.db, id) <==> m in w.db.messages && m.contactId.Some? && CameFrom(w, m.contactId.value, id)
    ensures multiset(Timeline(w.db, id))[m] <= 1
    ensures InOrder(Timeline(w.db, id), Older)
  {
    var part := Filter(w.db.messages, IsOf(w.db, id));
    assert m.contactId.Some? ==> (IsLinked(w.db, m.contactId.value, id) <==> CameFrom(w, m.contactId.value, id));
    FilterMembers(w.db.messages, IsOf(w.db, id));
    FilterOnce(w.db, IsOf(w.db, id), m);
    SortedOnce(part, m);
    hide *;
  }

  lemma FilterOnce(db: Database, keep: Message -> bool, m: Message)
    requires db.Valid()
    ensures multiset(Filter(db.messages, keep))[m] <= 1
  {
    var part := Filter(db.messages, keep);
    MessagesKeepIds(db.messages, keep);
    hide Filter;
    DistinctOnce(part, m);
  }

  lemma SortedOnce(part: seq<Message>, m: Message)
    ensures m in Sort(part, Older) <==> m in part
    ensures multiset(Sort(part, Older))[m] == multiset(part)[m]
    ensures InOrder(Sort(part, Older), Older)
  {
    OlderIsOrder();
    SortMembers(part, Older);
    SortInOrder(part, Older);
    SortPermutes(part, Older);
    hide *;
  }

  lemma {:induction false} DistinctOnce(s: seq<Message>, m: Message)
    requires MessagesAscend(s)
    ensures multiset(s)[m] <= 1
    decreases s
  {
    if s != [] {
      var init, last := s[..|s| - 1], s[|s| - 1];
      assert s == init + [last];
      DistinctOnce(init, m);
      assert last !in init;
    }
  }

  /** On every run an identity's follower count is the largest any identity folded into it started with. */
  lemma FollowerCountIsMax(ops: seq<Op>, rules: Rules, id: nat)
    requires id in Run(ops, rules).db.contacts
    ensures IsMaxFollowers(Run(ops, rules), id)
  {
    RunKeepsInv(ops, rules);
  }

  /** One merge: the survivor's timeline gains exactly the source's messages. */
  lemma MergeJoinsTimelines(db: Database, survivor: nat, source: nat, mode: MergeMode, now: int, rules: Rules)
    requires MergeOutcome(db, survivor, source).Ok?
    ensures var after := Merged(db, survivor, source, mode, now, rules);
            && multiset(Timeline(after, survivor)) == multiset(Timeline(db, survivor)) + multiset(Timeline(db, source))
            && InOrder(Timeline(after, survivor), Older)
            && Timeline(after, source) == []
  {
    var after := Merged(db, survivor, source, mode, now, rules);
    OlderIsOrder();
    SortInOrder(Filter(after.messages, IsOf(after, survivor)), Older);
    SortPermutes(Filter(after.messages, IsOf(after, survivor)), Older);
    SortPermutes(Filter(db.messages, IsOf(db, survivor)), Older);
    SortPermutes(Filter(db.messages, IsOf(db, source)), Older);
    forall m: Message
      ensures IsOf(after, survivor)(m) == (IsOf(db, survivor)(m) || IsOf(db, source)(m))
      ensures !IsOf(after, source)(m)
      ensures !(IsOf(db, survivor)(m) && IsOf(db, source)(m))
    {
    }
    FilterSplits(db.messages, IsOf(after, survivor), IsOf(db, survivor), IsOf(db, source));
    FilterNone(db.messages, IsOf(after, source));
    hide Filter, InOrder;
  }

  lemma {:induction false} FilterSplits(s: seq<Message>, whole: Message -> bool, a: Message -> bool, b: Message -> bool)
    requires forall m | m in s :: whole(m) == (a(m) || b(m)) && !(a(m) && b(m))
    ensures multiset(Filter(s, whole)) == multiset(Filter(s, a)) + multiset(Filter(s, b))
    decreases s
  {
    if s != [] {
      var init, last := s[..|s| - 1], s[|s| - 1];
      assert s == init + [last];
      FilterSplits(init, whole, a, b);
      FilterSnoc(init, last, whole);
      FilterSnoc(init, last, a);
      FilterSnoc(init, last, b);
      hide Filter;
    }
  }

  /**
   * What a survivor knew stays, what only the source knew is taken over, and nothing known is
   * lost; an email is kept in normal form, and one that is blank counts as none.
   */
  lemma MergeLosesNothing(db: Database, survivor: nat, source: nat, mode: MergeMode, now: int, rules: Rules)
    requires MergeOutcome(db, survivor, source).Ok?
    ensures var a, b, c := db.contacts[survivor], db.contacts[source], Merged(db, survivor, source, mode, now, rules).contacts[survivor];
            && (a.displayName.Some? ==> c.displayName == a.displayName)
            && (c.displayName.None? <==> a.displayName.None? && b.displayName.None?)
            && (NormalizedEmail(a.email, rules).Some? ==> c.email == NormalizedEmail(a.email, rules))
            && (c.email.None? <==> NormalizedEmail(a.email, rules).None? && NormalizedEmail(b.email, rules).None?)
            && c.followers >= a.followers && c.followers >= b.followers && c.followers in {a.followers, b.followers}
  {
  }

  /** A merge leaves every other identity alone: its fields, its accounts and its timeline. */
  lemma MergeFrame(db: Database, survivor: nat, source: nat, mode: MergeMode, now: int, rules: Rules, other: nat)
    requires MergeOutcome(db, survivor, source).Ok? && other != survivor && other != source
    ensures var after := Merged(db, survivor, source, mode, now, rules);
            && (other in after.contacts <==> other in db.contacts)
            && (other in db.contacts ==> after.contacts[other] == db.contacts[other])
            && (forall s :: (s in after.links && after.links[s] == other) <==> (s in db.links && db.links[s] == other))
            && Timeline(after, other) == Timeline(db, other)
  {
    var after := Merged(db, survivor, source, mode, now, rules);
    FilterAgrees(db.messages, IsOf(after, other), IsOf(db, other));
    hide Filter, Sort;
  }

  /** After a delete every other identity keeps its fields, its accounts and its timeline. */
  lemma DeleteFrame(db: Database, id: nat, cascade: bool, other: nat)
    requires DeleteOutcome(db, id, cascade).Ok? && other != id
    ensures var after := Deleted(db, id, cascade);
            && after.socials == db.socials
            && (other in after.contacts <==> other in db.contacts)
            && (other in db.contacts ==> after.contacts[other] == db.contacts[other])
            && (forall s :: IsLinked(after, s, other) <==> IsLinked(db, s, other))
            && Timeline(after, other) == Timeline(db, other)
  {
    var after := Deleted(db, id, cascade);
    FilterFilter(db.messages, IsKept(db, id), IsOf(after, other), IsOf(db, other));
    hide Filter, Sort;
  }

  /** A delete takes the identity, its links, exactly the messages of its timeline and, on cascade, its merge rows. */
  lemma DeleteRemoves(db: Database, id: nat, cascade: bool, m: Message, r: MergeRow)
    requires DeleteOutcome(db, id, cascade).Ok?
    ensures var after := Deleted(db, id, cascade);
            && id !in after.contacts && (forall s :: !IsLinked(after, s, id))
            && (m in after.messages <==> m in db.messages && m !in Timeline(db, id))
            && (m in after.messages && m.contactId.Some? ==> !IsLinked(db, m.contactId.value, id))
            && (r in after.merges <==> r in db.merges && r.survivor != id)
            && (!cascade ==> after.merges == db.merges)
  {
    FilterMembers(db.messages, IsKept(db, id));
    FilterMembers(db.messages, IsOf(db, id));
    FilterMembers(db.merges, IsNotSurvivor(id));
    SortMembers(Filter(db.messages, IsOf(db, id)), Older);
    hide Filter, Sort;
  }
}
