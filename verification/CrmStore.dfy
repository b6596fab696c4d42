/**
 * The CRM tables and statements: identities, their links to social contacts, messages and
 * the merge log, with one function per SQL statement and per operation made of them.
 */
module CrmStore {
  import opened Wrappers
  import opened Sorting
  import opened Text

  datatype Social = Social(id: nat, platform: string, platformContactId: string, handle: Option<string>,
                           displayName: Option<string>, avatarUrl: Option<string>, metadata: Option<string>)

  datatype Message = Message(id: nat, platform: string, platformMessageId: string, contactId: Option<nat>,
                             outbound: bool, body: string, sentAt: Option<string>, createdAt: string)

  datatype Contact = Contact(displayName: Option<string>, email: Option<string>, followers: nat, updatedAt: int)

  datatype MergeMode = Manual | Suggested

  datatype MergeRow = MergeRow(survivor: nat, source: nat, mode: MergeMode)

  ghost predicate SocialsAscend(s: seq<Social>) { forall i, j | 0 <= i < j < |s| :: s[i].id < s[j].id }

  ghost predicate MessagesAscend(s: seq<Message>) { forall i, j | 0 <= i < j < |s| :: s[i].id < s[j].id }

  /** Tables with their next row id; ids are never reused. A link maps a social contact to its identity. */
  datatype Database = Database(
    socials: seq<Social>, nextSocial: nat, messages: seq<Message>, nextMessage: nat,
    contacts: map<nat, Contact>, nextContact: nat, links: map<nat, nat>, merges: seq<MergeRow>)
  {
    ghost predicate Valid() {
      && SocialsAscend(socials) && MessagesAscend(messages)
      && (forall s | s in socials :: s.id < nextSocial)
      && (forall m | m in messages :: m.id < nextMessage)
      && (forall c | c in contacts :: c < nextContact)
    }
  }

  const EMPTY := Database([], 0, [], 0, map[], 0, map[], [])

  /** How a new identity's email and follower count are read off metadata and messages. */
  datatype Rules = Rules(
    discoverEmail: (Option<string>, seq<string>) -> Option<string>,
    discoverFollowers: Option<string> -> nat,
    normalizeEmail: string -> Option<string>)

  function OrElse<T>(a: Option<T>, b: Option<T>): Option<T> { if a.Some? then a else b }

  // ---------------------------------------------------------------- messages in time

  /** `COALESCE(sent_at, created_at)` */
  function At(m: Message): string { if m.sentAt.Some? then m.sentAt.value else m.createdAt }

  predicate Older(x: Message, y: Message) { Before(At(x), At(y)) || (At(x) == At(y) && x.id < y.id) }

  predicate Newer(x: Message, y: Message) { Older(y, x) }

  lemma OlderIsOrder()
    ensures IsOrder(Older) && IsOrder(Newer)
    ensures forall x: Message, y: Message :: x.id != y.id ==> Older(x, y) || Older(y, x)
  {
    forall x: Message, y: Message
      ensures Older(x, y) ==> !Older(y, x)
      ensures x.id != y.id ==> Older(x, y) || Older(y, x)
    {
      BeforeIsTotal(At(x), At(y));
    }
    forall x: Message, y: Message, z: Message
      ensures !Older(y, x) && !Older(z, y) ==> !Older(z, x)
    {
      BeforeIsTotal(At(x), At(y));
      BeforeIsTotal(At(y), At(z));
      BeforeIsTotal(At(x), At(z));
      if Before(At(x), At(y)) && Before(At(y), At(z)) {
        BeforeChains(At(x), At(y), At(z));
      }
    }
  }

  // ---------------------------------------------------------------- ingest

  predicate SameAccount(a: Social, b: Social) { a.platform == b.platform && a.platformContactId == b.platformContactId }

  function MergedSocial(s: Social, input: Social): Social {
    s.(handle := OrElse(input.handle, s.handle), displayName := OrElse(input.displayName, s.displayName),
       avatarUrl := OrElse(input.avatarUrl, s.avatarUrl), metadata := OrElse(input.metadata, s.metadata))
  }

  /** Insert a social contact, or fill in the one with the same platform id. */
  function UpsertSocial(db: Database, input: Social): Database {
    if exists i :: 0 <= i < |db.socials| && SameAccount(db.socials[i], input) then
      db.(socials := seq(|db.socials|, i requires 0 <= i < |db.socials| =>
        if SameAccount(db.socials[i], input) then MergedSocial(db.socials[i], input) else db.socials[i]))
    else
      db.(socials := db.socials + [input.(id := db.nextSocial)], nextSocial := db.nextSocial + 1)
  }

  predicate SameDelivery(a: Message, b: Message) { a.platform == b.platform && a.platformMessageId == b.platformMessageId }

  function MergedMessage(m: Message, input: Message): Message {
    m.(contactId := OrElse(input.contactId, m.contactId), body := input.body, sentAt := OrElse(input.sentAt, m.sentAt))
  }

  function UpsertMessage(db: Database, input: Message): Database {
    if exists i :: 0 <= i < |db.messages| && SameDelivery(db.messages[i], input) then
      db.(messages := seq(|db.messages|, i requires 0 <= i < |db.messages| =>
        if SameDelivery(db.messages[i], input) then MergedMessage(db.messages[i], input) else db.messages[i]))
    else
      db.(messages := db.messages + [input.(id := db.nextMessage)], nextMessage := db.nextMessage + 1)
  }

  // ---------------------------------------------------------------- sync

  function IsUnlinked(db: Database): Social -> bool { (s: Social) => s.id !in db.links }

  /** Social contacts without a link, by id. */
  function UnlinkedSocials(db: Database): seq<Social> { Filter(db.socials, IsUnlinked(db)) }

  function IsFrom(social: nat): Message -> bool { (m: Message) => m.contactId == Some(social) }

  function Take<T>(s: seq<T>, n: nat): seq<T> { if n <= |s| then s[..n] else s }

  function Bodies(messages: seq<Message>): seq<string> { seq(|messages|, i requires 0 <= i < |messages| => messages[i].body) }

  /** The 50 newest bodies of one social contact. */
  function BodiesForSocial(db: Database, social: nat): seq<string> {
    Bodies(Take(Sort(Filter(db.messages, IsFrom(social)), Newer), 50))
  }

  /** A new identity for a social contact, linked to it. */
  function CreateIdentity(db: Database, s: Social, now: int, rules: Rules): Database {
    var contact := Contact(
      OrElse(s.displayName, s.handle), rules.discoverEmail(s.metadata, BodiesForSocial(db, s.id)), rules.discoverFollowers(s.metadata), now);
    db.(contacts := db.contacts[db.nextContact := contact], nextContact := db.nextContact + 1, links := db.links[s.id := db.nextContact])
  }

  function CreateAll(db: Database, socials: seq<Social>, now: int, rules: Rules): Database {
    if socials == [] then db
    else CreateIdentity(CreateAll(db, socials[..|socials| - 1], now, rules), socials[|socials| - 1], now, rules)
  }

  function Synced(db: Database, now: int, rules: Rules): Database { CreateAll(db, UnlinkedSocials(db), now, rules) }

  // ---------------------------------------------------------------- merge

  datatype MergeError = SelfMerge | SurvivorMissing | SourceMissing

  function RepointLinks(db: Database, survivor: nat, source: nat): Database {
    db.(links := map s | s in db.links :: if db.links[s] == source then survivor else db.links[s])
  }

  /** Deleting an identity takes its links with it. */
  function DeleteContactRow(db: Database, id: nat): Database {
    db.(contacts := db.contacts - {id}, links := map s | s in db.links && db.links[s] != id :: db.links[s])
  }

  function NormalizedEmail(email: Option<string>, rules: Rules): Option<string> {
    if email.Some? then rules.normalizeEmail(email.value) else None
  }

  function Max(a: nat, b: nat): nat { if a >= b then a else b }

  /** The survivor keeps its own fields and takes what it lacks from the source. */
  function Folded(survivor: Contact, source: Contact, now: int, rules: Rules): Contact {
    Contact(OrElse(survivor.displayName, source.displayName),
            OrElse(NormalizedEmail(survivor.email, rules), NormalizedEmail(source.email, rules)),
            Max(survivor.followers, source.followers), now)
  }

  function Merged(db: Database, survivor: nat, source: nat, mode: MergeMode, now: int, rules: Rules): Database
    requires survivor in db.contacts && source in db.contacts
  {
    var repointed := RepointLinks(db, survivor, source);
    var updated := repointed.(contacts := db.contacts[survivor := Folded(db.contacts[survivor], db.contacts[source], now, rules)],
                              merges := db.merges + [MergeRow(survivor, source, mode)]);
    DeleteContactRow(updated, source)
  }

  function MergeOutcome(db: Database, survivor: nat, source: nat): Result<(), MergeError> {
    if survivor == source then Err(SelfMerge)
    else if survivor !in db.contacts then Err(SurvivorMissing)
    else if source !in db.contacts then Err(SourceMissing)
    else Ok(())
  }

  // ---------------------------------------------------------------- right to delete

  datatype DeleteError = NotFound | HasMergeHistory

  function DeleteOutcome(db: Database, id: nat, cascade: bool): Result<(), DeleteError> {
    if id !in db.contacts then Err(NotFound)
    else if !cascade && exists r :: r in db.merges && r.survivor == id then Err(HasMergeHistory)
    else Ok(())
  }

  function IsKept(db: Database, id: nat): Message -> bool {
    (m: Message) => !(m.contactId.Some? && m.contactId.value in db.links && db.links[m.contactId.value] == id)
  }

  function IsNotSurvivor(id: nat): MergeRow -> bool { (r: MergeRow) => r.survivor != id }

  /** The identity, its links and the messages of its accounts go; on cascade its merge rows too. */
  function Deleted(db: Database, id: nat, cascade: bool): Database {
    DeleteContactRow(db.(messages := Filter(db.messages, IsKept(db, id)),
                         merges := if cascade then Filter(db.merges, IsNotSurvivor(id)) else db.merges), id)
  }

  // ---------------------------------------------------------------- reading

  function IsOf(db: Database, id: nat): Message -> bool {
    (m: Message) => m.contactId.Some? && m.contactId.value in db.links && db.links[m.contactId.value] == id
  }

  /** All messages of an identity's accounts, in the order of their stored times and then of their ids. */
  function Timeline(db: Database, id: nat): seq<Message> { Sort(Filter(db.messages, IsOf(db, id)), Older) }
}
